/** The balance shards and the order in which requests reach them (src/state.rs). */
module Shards {
  import opened Model
  import opened Bits

  /** SipHash of owner and SKU is any function of them. */
  type Hash = Position -> nat

  /** shard_for; `count` is a power of two by configuration. */
  function ShardFor(hash: Hash, p: Position, count: nat): nat
    requires count > 0
  {
    BitAnd(hash(p), count - 1)
  }

  ghost predicate PowerOfTwo(count: nat) { exists n: nat :: count == Pow2(n) }

  lemma ShardForIsRemainder(hash: Hash, p: Position, count: nat)
    requires PowerOfTwo(count)
    ensures count > 0 && ShardFor(hash, p, count) == hash(p) % count < count
  {
    var n: nat :| count == Pow2(n);
    MaskIsRemainder(hash(p), n);
  }

  /** The operations that one shard sees, in order. */
  function Projected(hash: Hash, count: nat, ops: seq<Operation>, shard: nat): seq<Operation>
    requires count > 0
  {
    if ops == [] then []
    else
      var last := ops[|ops| - 1];
      Projected(hash, count, ops[..|ops| - 1], shard)
      + if ShardFor(hash, PositionOf(last), count) == shard then [last] else []
  }

  lemma {:induction false} ProjectedTotals(hash: Hash, count: nat, ops: seq<Operation>, shard: nat, p: Position)
    requires count > 0
    ensures ShardFor(hash, p, count) == shard ==>
              Total(Projected(hash, count, ops, shard), p) == Total(ops, p)
              && Touching(Projected(hash, count, ops, shard), p) == Touching(ops, p)
    ensures ShardFor(hash, p, count) != shard ==>
              Total(Projected(hash, count, ops, shard), p) == 0 && Touching(Projected(hash, count, ops, shard), p) == 0
  {
    hide ShardFor;
    if ops != [] {
      var m := |ops| - 1;
      ProjectedTotals(hash, count, ops[..m], shard, p);
      var before := Projected(hash, count, ops[..m], shard);
      assert (before + [ops[m]])[..|before|] == before && before + [] == before;
    }
  }

  // ----- Sharded state is the unsharded fold -----

  /** Every key is in its own shard. */
  ghost predicate Placed(hash: Hash, shards: seq<Balances>) {
    PowerOfTwo(|shards|) && forall k, p :: 0 <= k < |shards| && p in shards[k] ==> |shards| > 0 && ShardFor(hash, p, |shards|) == k
  }

  function Union(shards: seq<Balances>): Balances {
    if shards == [] then map[] else Union(shards[..|shards| - 1]) + shards[|shards| - 1]
  }

  lemma {:induction false} UnionLookup(shards: seq<Balances>, at: nat, p: Position)
    requires at < |shards| && forall k :: 0 <= k < |shards| && p in shards[k] ==> k == at
    ensures (p in Union(shards) <==> p in shards[at]) && Balance(Union(shards), p) == Balance(shards[at], p)
  {
    var m := |shards| - 1;
    if at < m { UnionLookup(shards[..m], at, p); } else { NotInUnion(shards[..m], p); }
  }

  lemma {:induction false} NotInUnion(shards: seq<Balances>, p: Position)
    requires forall k :: 0 <= k < |shards| ==> p !in shards[k]
    ensures p !in Union(shards)
  {
    if shards != [] { NotInUnion(shards[..|shards| - 1], p); }
  }

  lemma SameBalances(a: Balances, b: Balances)
    requires forall p :: (p in a <==> p in b) && Balance(a, p) == Balance(b, p)
    ensures a == b
  {
    forall p | p in a ensures a[p] == b[p] { assert Balance(a, p) == Balance(b, p); }
  }

  /** What the shards hold after each has processed its own part of `ops`. */
  function AfterAll(hash: Hash, shards: seq<Balances>, ops: seq<Operation>): (r: seq<Balances>)
    requires |shards| > 0
    ensures |r| == |shards|
  {
    seq(|shards|, k requires 0 <= k < |shards| => AddAll(shards[k], Projected(hash, |shards|, ops, k)))
  }

  /** For any power-of-two shard count, shards that each apply their own part of the
      operations have disjoint keys and together are the unsharded fold. */
  lemma ShardedIsUnsharded(hash: Hash, shards: seq<Balances>, ops: seq<Operation>)
    requires Placed(hash, shards) && |shards| > 0
    ensures Placed(hash, AfterAll(hash, shards, ops))
    ensures Union(AfterAll(hash, shards, ops)) == AddAll(Union(shards), ops)
  {
    hide ShardFor, Union, AddAll, PowerOfTwo;
    var after := AfterAll(hash, shards, ops);
    forall k, p | 0 <= k < |after| && p in after[k] ensures ShardFor(hash, p, |after|) == k {
      BalanceAfterAll(shards[k], Projected(hash, |shards|, ops, k), p);
      ProjectedTotals(hash, |shards|, ops, k, p);
    }
    forall p ensures (p in Union(after) <==> p in AddAll(Union(shards), ops))
                     && Balance(Union(after), p) == Balance(AddAll(Union(shards), ops), p) {
      ShardForIsRemainder(hash, p, |shards|);
      var k := ShardFor(hash, p, |shards|);
      UnionLookup(shards, k, p);
      UnionLookup(after, k, p);
      BalanceAfterAll(Union(shards), ops, p);
      BalanceAfterAll(shards[k], Projected(hash, |shards|, ops, k), p);
      ProjectedTotals(hash, |shards|, ops, k, p);
    }
    SameBalances(Union(after), AddAll(Union(shards), ops));
  }

  // ----- One shard -----

  datatype Status = Applied | Duplicate

  datatype ApplyResult = ApplyResult(id: Text, status: Status, balance: int)

  type Indexed = seq<(nat, Operation)>

  function OpsOf(items: Indexed): (r: seq<Operation>)
    ensures |r| == |items|
  {
    seq(|items|, i requires 0 <= i < |items| => items[i].1)
  }

  /** The answer to item `i` of a command: the running balance of its key, counting the
      items of the command up to and including it. */
  ghost predicate Answers(before: Balances, items: Indexed, i: nat, answer: (nat, ApplyResult))
    requires i < |items|
  {
    && answer.0 == items[i].0 && answer.1.id == items[i].1.id && answer.1.status == Applied
    && answer.1.balance == Balance(before, PositionOf(items[i].1)) + Total(OpsOf(items[..i + 1]), PositionOf(items[i].1))
  }

  /** The first `n` items that are about this owner and SKU. */
  ghost function ItemsFor(items: Indexed, n: nat, owner: Text, sku: Text): set<nat> {
    set j: nat | j < n && j < |items| && items[j].1.owner == owner && items[j].1.sku == sku
  }

  ghost function ItemDelta(items: Indexed): nat -> int {
    (j: nat) => if j < |items| then items[j].1.delta else 0
  }

  lemma ItemsTotal(items: Indexed, n: nat, owner: Text, sku: Text)
    requires n <= |items|
    ensures Total(OpsOf(items[..n]), Position(owner, sku)) == SumOver(ItemsFor(items, n, owner, sku), ItemDelta(items))
  {
    var ops := OpsOf(items[..n]);
    TotalIsSum(ops, owner, sku);
    assert Concerned(ops, owner, sku) == ItemsFor(items, n, owner, sku);
    SameWeights<nat>(Concerned(ops, owner, sku), DeltaAt(ops), ItemDelta(items));
  }

  /** The running balance that item `i` is answered with, told from the items: what the key
      had before, plus the deltas of the items up to this one with its owner and SKU. */
  ghost predicate RunningBalance(before: int, items: Indexed, i: nat, balance: int)
    requires i < |items|
  {
    var op := items[i].1;
    balance == before + SumOver((set j: nat | j <= i && items[j].1.owner == op.owner && items[j].1.sku == op.sku), ItemDelta(items))
  }

  lemma AnswersRun(before: Balances, items: Indexed, i: nat, answer: (nat, ApplyResult))
    requires i < |items| && Answers(before, items, i, answer)
    ensures RunningBalance(Balance(before, Position(items[i].1.owner, items[i].1.sku)), items, i, answer.1.balance)
  {
    var op := items[i].1;
    ItemsTotal(items, i + 1, op.owner, op.sku);
    assert ItemsFor(items, i + 1, op.owner, op.sku)
        == set j: nat | j <= i && items[j].1.owner == op.owner && items[j].1.sku == op.sku;
  }

  /** One ApplyBatch command: the balance of each owner and SKU moves by the deltas of
      exactly its own items. */
  method ApplyGroup(before: Balances, items: Indexed) returns (balances: Balances, results: seq<(nat, ApplyResult)>)
    ensures balances == AddAll(before, OpsOf(items))
    ensures forall owner, sku :: Balance(balances, Position(owner, sku))
              == Balance(before, Position(owner, sku)) + SumOver(ItemsFor(items, |items|, owner, sku), ItemDelta(items))
    ensures |results| == |items| && forall i :: 0 <= i < |items| ==> Answers(before, items, i, results[i])
    ensures forall i :: 0 <= i < |items| ==>
              && results[i].0 == items[i].0 && results[i].1.id == items[i].1.id && results[i].1.status == Applied
              && RunningBalance(Balance(before, Position(items[i].1.owner, items[i].1.sku)), items, i, results[i].1.balance)
  {
    hide SumOver, RunningBalance, ItemsFor, ItemDelta;
    balances, results := before, [];
    assert OpsOf(items[..0]) == [];
    for n := 0 to |items|
      invariant balances == AddAll(before, OpsOf(items[..n]))
      invariant |results| == n && forall i :: 0 <= i < n ==> Answers(before, items, i, results[i])
    {
      var (index, op) := items[n];
      assert OpsOf(items[..n + 1])[..n] == OpsOf(items[..n]);
      balances := Add(balances, op);
      BalanceAfterAll(before, OpsOf(items[..n + 1]), PositionOf(op));
      results := results + [(index, ApplyResult(op.id, Applied, Balance(balances, PositionOf(op))))];
    }
    assert items[..|items|] == items;
    GroupMoves(before, items, balances);
    forall i | 0 <= i < |items|
      ensures && results[i].0 == items[i].0 && results[i].1.id == items[i].1.id && results[i].1.status == Applied
              && RunningBalance(Balance(before, Position(items[i].1.owner, items[i].1.sku)), items, i, results[i].1.balance)
    {
      AnswersRun(before, items, i, results[i]);
    }
  }

  lemma GroupMoves(before: Balances, items: Indexed, balances: Balances)
    requires balances == AddAll(before, OpsOf(items))
    ensures forall owner, sku :: Balance(balances, Position(owner, sku))
              == Balance(before, Position(owner, sku)) + SumOver(ItemsFor(items, |items|, owner, sku), ItemDelta(items))
  {
    hide SumOver, ItemsFor, ItemDelta, AddAll, Total;
    assert items[..|items|] == items;
    forall owner, sku
      ensures Balance(balances, Position(owner, sku))
              == Balance(before, Position(owner, sku)) + SumOver(ItemsFor(items, |items|, owner, sku), ItemDelta(items))
    {
      BalanceAfterAll(before, OpsOf(items), Position(owner, sku));
      ItemsTotal(items, |items|, owner, sku);
    }
  }

  datatype Command = ApplyBatch(items: Indexed) | Dump

  datatype Reply = Results(results: seq<(nat, ApplyResult)>) | Dumped(balances: Balances)

  function OpsIn(command: Command): seq<Operation> {
    match command case ApplyBatch(items) => OpsOf(items) case Dump => []
  }

  function CommandOps(queue: seq<Command>): seq<Operation> {
    if queue == [] then [] else CommandOps(queue[..|queue| - 1]) + OpsIn(queue[|queue| - 1])
  }

  ghost predicate Replies(before: Balances, command: Command, reply: Reply) {
    match command
    case Dump => reply == Dumped(before)
    case ApplyBatch(items) =>
      reply.Results? && |reply.results| == |items| && forall i :: 0 <= i < |items| ==> Answers(before, items, i, reply.results[i])
  }

  const DRAIN: nat := 1024

  lemma {:induction false} AddAllConcat(b: Balances, x: seq<Operation>, y: seq<Operation>)
    ensures AddAll(b, x + y) == AddAll(AddAll(b, x), y)
  {
    if y == [] {
      assert x + y == x;
    } else {
      assert (x + y)[..|x + y| - 1] == x + y[..|y| - 1];
      AddAllConcat(b, x, y[..|y| - 1]);
    }
  }

  method Execute(before: Balances, command: Command) returns (balances: Balances, reply: Reply)
    ensures balances == AddAll(before, OpsIn(command)) && Replies(before, command, reply)
  {
    hide AddAll, Answers;
    match command {
      case Dump =>
        NothingAdded(before);
        balances, reply := before, Dumped(before);
      case ApplyBatch(items) =>
        var results;
        balances, results := ApplyGroup(before, items);
        reply := Results(results);
    }
  }

  /** The first `|replies|` commands have been answered, each in the state that all earlier
      commands left, and `balances` is what they leave together. */
  ghost predicate Served(start: Balances, queue: seq<Command>, balances: Balances, replies: seq<Reply>) {
    && |replies| <= |queue|
    && balances == AddAll(start, CommandOps(queue[..|replies|]))
    && forall i :: 0 <= i < |replies| ==> Replies(AddAll(start, CommandOps(queue[..i])), queue[i], replies[i])
  }

  lemma ServedOneMore(start: Balances, queue: seq<Command>, balances: Balances, replies: seq<Reply>, after: Balances, reply: Reply)
    requires Served(start, queue, balances, replies) && |replies| < |queue|
    requires after == AddAll(balances, OpsIn(queue[|replies|])) && Replies(balances, queue[|replies|], reply)
    ensures Served(start, queue, after, replies + [reply])
  {
    hide AddAll, Replies, OpsIn, CommandOps;
    var n, all := |replies|, replies + [reply];
    OneMoreCommand(queue, n);
    AddAllConcat(start, CommandOps(queue[..n]), OpsIn(queue[n]));
    forall i | 0 <= i < |all| ensures Replies(AddAll(start, CommandOps(queue[..i])), queue[i], all[i]) {
      if i < n { assert all[i] == replies[i]; }
    }
  }

  lemma OneMoreCommand(queue: seq<Command>, n: nat)
    requires n < |queue|
    ensures CommandOps(queue[..n + 1]) == CommandOps(queue[..n]) + OpsIn(queue[n])
  {
    hide OpsIn;
    assert queue[..n + 1][..n] == queue[..n];
  }

  /** The items of the first `n` commands that are about this owner and SKU, by command and
      place in it. */
  ghost function QueueItems(queue: seq<Command>, n: nat, owner: Text, sku: Text): set<(nat, nat)> {
    set c: nat, i: nat | c < |queue| && c < n && queue[c].ApplyBatch? && i < |queue[c].items|
                         && queue[c].items[i].1.owner == owner && queue[c].items[i].1.sku == sku :: (c, i)
  }

  ghost function QueueDelta(queue: seq<Command>): ((nat, nat)) -> int {
    (at: (nat, nat)) => if at.0 < |queue| && queue[at.0].ApplyBatch? then ItemDelta(queue[at.0].items)(at.1) else 0
  }

  /** What the first `n` commands and the first `i` items of the one behind them add up to. */
  lemma {:induction false} QueueTotal(queue: seq<Command>, n: nat, owner: Text, sku: Text)
    requires n <= |queue|
    ensures Total(CommandOps(queue[..n]), Position(owner, sku)) == SumOver(QueueItems(queue, n, owner, sku), QueueDelta(queue))
  {
    hide SumOver, Total, OpsIn, ItemsFor, ItemDelta;
    if n == 0 {
      NoQueueItems(queue, owner, sku);
      assert SumOver<(nat, nat)>({}, QueueDelta(queue)) == 0 by { SumOfNothing(QueueDelta(queue)); }
      assert queue[..0] == [] && Total([], Position(owner, sku)) == 0 by { NothingTotals(Position(owner, sku)); }
    } else {
      var m := n - 1;
      QueueTotal(queue, m, owner, sku);
      OneMoreCommand(queue, m);
      TotalOfConcat(CommandOps(queue[..m]), OpsIn(queue[m]), Position(owner, sku));
      CommandTotal(queue, m, owner, sku);
      QueueItemsGrow(queue, m, owner, sku);
      SumOfParts(QueueItems(queue, m, owner, sku), ItemsOfCommand(queue, m, owner, sku), QueueDelta(queue));
    }
  }

  lemma NoQueueItems(queue: seq<Command>, owner: Text, sku: Text)
    ensures QueueItems(queue, 0, owner, sku) == {}
  {
  }

  lemma SumOfNothing<T(!new)>(weight: T -> int)
    ensures SumOver({}, weight) == 0
  {
  }

  lemma NothingTotals(p: Position)
    ensures Total([], p) == 0
  {
  }

  ghost function ItemsOfCommand(queue: seq<Command>, c: nat, owner: Text, sku: Text): set<(nat, nat)>
    requires c < |queue|
  {
    if queue[c].Dump? then {} else set i | i in ItemsFor(queue[c].items, |queue[c].items|, owner, sku) :: (c, i)
  }

  lemma QueueItemsGrow(queue: seq<Command>, c: nat, owner: Text, sku: Text)
    requires c < |queue|
    ensures QueueItems(queue, c, owner, sku) !! ItemsOfCommand(queue, c, owner, sku)
    ensures QueueItems(queue, c + 1, owner, sku) == QueueItems(queue, c, owner, sku) + ItemsOfCommand(queue, c, owner, sku)
  {
  }

  lemma CommandTotal(queue: seq<Command>, c: nat, owner: Text, sku: Text)
    requires c < |queue|
    ensures Total(OpsIn(queue[c]), Position(owner, sku)) == SumOver(ItemsOfCommand(queue, c, owner, sku), QueueDelta(queue))
  {
    hide SumOver, Total, ItemsFor, ItemDelta;
    match queue[c]
    case Dump =>
      NothingTotals(Position(owner, sku));
      SumOfNothing(QueueDelta(queue));
    case ApplyBatch(items) =>
      assert items[..|items|] == items;
      ItemsTotal(items, |items|, owner, sku);
      SumOfImage<nat, (nat, nat)>(ItemsFor(items, |items|, owner, sku), ItemDelta(items), ItemsOfCommand(queue, c, owner, sku),
                                  QueueDelta(queue), (i: nat) => (c, i));
  }

  /** What command `c` finds, told from the items of the commands before it. */
  ghost predicate Finds(start: Balances, queue: seq<Command>, c: nat, found: Balances) {
    forall owner, sku :: Balance(found, Position(owner, sku))
      == Balance(start, Position(owner, sku)) + SumOver(QueueItems(queue, c, owner, sku), QueueDelta(queue))
  }

  lemma FindsAllBefore(start: Balances, queue: seq<Command>, c: nat)
    requires c <= |queue|
    ensures Finds(start, queue, c, AddAll(start, CommandOps(queue[..c])))
  {
    hide SumOver, AddAll, Total, QueueItems, QueueDelta;
    forall owner, sku
      ensures Balance(AddAll(start, CommandOps(queue[..c])), Position(owner, sku))
              == Balance(start, Position(owner, sku)) + SumOver(QueueItems(queue, c, owner, sku), QueueDelta(queue))
    {
      BalanceAfterAll(start, CommandOps(queue[..c]), Position(owner, sku));
      QueueTotal(queue, c, owner, sku);
    }
  }

  /** The reply to command `c`: every item is answered with the running balance of its key,
      which counts each item of each earlier command and the items before it in its own; a
      dump shows what the earlier commands left. */
  ghost predicate RepliesInOrder(start: Balances, queue: seq<Command>, c: nat, reply: Reply)
    requires c < |queue|
  {
    match queue[c]
    case Dump => reply.Dumped? && Finds(start, queue, c, reply.balances)
    case ApplyBatch(items) =>
      && reply.Results? && |reply.results| == |items|
      && forall i :: 0 <= i < |items| ==>
           var op := items[i].1;
           && reply.results[i].0 == items[i].0 && reply.results[i].1.id == op.id && reply.results[i].1.status == Applied
           && RunningBalance(Balance(start, Position(op.owner, op.sku)) + SumOver(QueueItems(queue, c, op.owner, op.sku), QueueDelta(queue)),
                             items, i, reply.results[i].1.balance)
  }

  lemma ServedInOrder(start: Balances, queue: seq<Command>, balances: Balances, replies: seq<Reply>, c: nat)
    requires Served(start, queue, balances, replies) && c < |replies|
    ensures RepliesInOrder(start, queue, c, replies[c])
  {
    hide SumOver, AddAll, Total, QueueItems, QueueDelta, Answers, RunningBalance, CommandOps;
    var found := AddAll(start, CommandOps(queue[..c]));
    FindsAllBefore(start, queue, c);
    assert Replies(found, queue[c], replies[c]);
    if queue[c].ApplyBatch? {
      var items := queue[c].items;
      forall i | 0 <= i < |items| ensures
          var op := items[i].1;
          && replies[c].results[i].0 == items[i].0 && replies[c].results[i].1.id == op.id && replies[c].results[i].1.status == Applied
          && RunningBalance(Balance(start, Position(op.owner, op.sku)) + SumOver(QueueItems(queue, c, op.owner, op.sku), QueueDelta(queue)),
                            items, i, replies[c].results[i].1.balance)
      {
        AnswersRun(found, items, i, replies[c].results[i]);
        AnswersPlace(found, items, i, replies[c].results[i]);
      }
    }
  }

  lemma AnswersPlace(before: Balances, items: Indexed, i: nat, answer: (nat, ApplyResult))
    requires i < |items| && Answers(before, items, i, answer)
    ensures answer.0 == items[i].0 && answer.1.id == items[i].1.id && answer.1.status == Applied
  {
  }

  /** run_shard on a queue of commands. How many are drained at a time, at most 1024 and as
      many as `waiting` says, makes no difference. */
  method RunShard(start: Balances, queue: seq<Command>, waiting: nat -> nat) returns (balances: Balances, replies: seq<Reply>)
    ensures |replies| == |queue|
    ensures forall owner, sku :: Balance(balances, Position(owner, sku))
              == Balance(start, Position(owner, sku)) + SumOver(QueueItems(queue, |queue|, owner, sku), QueueDelta(queue))
    ensures forall c :: 0 <= c < |queue| ==> RepliesInOrder(start, queue, c, replies[c])
  {
    hide AddAll, Replies, Served, Finds, RepliesInOrder, SumOver, QueueItems, QueueDelta;
    balances, replies := start, [];
    NothingServed(start, queue);
    while |replies| < |queue|
      invariant |replies| <= |queue| && Served(start, queue, balances, replies)
      decreases |queue| - |replies|
    {
      var first := |replies|;
      var drained := 1 + waiting(first);
      if drained > DRAIN { drained := DRAIN; }
      if drained > |queue| - first { drained := |queue| - first; }
      for c := 0 to drained
        invariant |replies| == first + c <= |queue| && Served(start, queue, balances, replies)
      {
        var after, reply := Execute(balances, queue[first + c]);
        ServedOneMore(start, queue, balances, replies, after, reply);
        balances, replies := after, replies + [reply];
      }
    }
    ServedBalances(start, queue, balances, replies);
    FindsAllBefore(start, queue, |queue|);
    FindsMeans(start, queue, balances);
    forall c | 0 <= c < |queue| ensures RepliesInOrder(start, queue, c, replies[c]) {
      ServedInOrder(start, queue, balances, replies, c);
    }
  }

  lemma FindsMeans(start: Balances, queue: seq<Command>, found: Balances)
    requires Finds(start, queue, |queue|, found)
    ensures forall owner, sku :: Balance(found, Position(owner, sku))
              == Balance(start, Position(owner, sku)) + SumOver(QueueItems(queue, |queue|, owner, sku), QueueDelta(queue))
  {
  }

  lemma ServedBalances(start: Balances, queue: seq<Command>, balances: Balances, replies: seq<Reply>)
    requires Served(start, queue, balances, replies)
    ensures |replies| <= |queue| && balances == AddAll(start, CommandOps(queue[..|replies|]))
  {
  }

  lemma NothingServed(start: Balances, queue: seq<Command>)
    ensures Served(start, queue, start, [])
  {
    assert CommandOps(queue[..0]) == [];
  }

  lemma NothingAdded(b: Balances)
    ensures AddAll(b, []) == b
  {
  }

  // ----- A batch over all shards -----

  function GroupOf(hash: Hash, count: nat, items: Indexed, shard: nat): Indexed
    requires count > 0
  {
    if items == [] then []
    else
      var last := items[|items| - 1];
      GroupOf(hash, count, items[..|items| - 1], shard)
      + if ShardFor(hash, PositionOf(last.1), count) == shard then [last] else []
  }

  /** Member `g` of a group stands at `i` in the batch, and the group up to it is the
      shard's part of the batch up to there. */
  ghost predicate PlaceOk(hash: Hash, count: nat, items: Indexed, shard: nat, group: Indexed, g: nat, i: nat)
    requires count > 0
  {
    && g < |group| && i < |items| && group[g] == items[i]
    && ShardFor(hash, PositionOf(items[i].1), count) == shard
    && OpsOf(group[..g + 1]) == Projected(hash, count, OpsOf(items[..i + 1]), shard)
  }

  ghost predicate GroupPlaces(hash: Hash, count: nat, items: Indexed, shard: nat, group: Indexed, at: seq<nat>)
    requires count > 0
  {
    && |at| == |group|
    && (forall g :: 0 <= g < |at| ==> PlaceOk(hash, count, items, shard, group, g, at[g]))
    && (forall i :: 0 <= i < |items| && ShardFor(hash, PositionOf(items[i].1), count) == shard ==> i in at)
  }

  lemma PlaceStays(hash: Hash, count: nat, items: Indexed, m: nat, shard: nat, before: Indexed, group: Indexed, g: nat, i: nat)
    requires count > 0 && m <= |items| && before <= group
    requires PlaceOk(hash, count, items[..m], shard, before, g, i)
    ensures PlaceOk(hash, count, items, shard, group, g, i)
  {
    hide ShardFor, Projected;
    assert items[..m][..i + 1] == items[..i + 1] && before[..g + 1] == group[..g + 1];
  }

  lemma {:induction false} GroupIsProjection(hash: Hash, count: nat, items: Indexed, shard: nat)
    requires count > 0
    ensures OpsOf(GroupOf(hash, count, items, shard)) == Projected(hash, count, OpsOf(items), shard)
  {
    hide ShardFor;
    if items != [] {
      var m := |items| - 1;
      GroupIsProjection(hash, count, items[..m], shard);
      assert OpsOf(items)[..m] == OpsOf(items[..m]);
      var before := GroupOf(hash, count, items[..m], shard);
      assert OpsOf(before + [items[m]]) == OpsOf(before) + [items[m].1] && before + [] == before;
    }
  }

  /** The group keeps the order of the batch. */
  lemma {:induction false} GroupFollowsBatch(hash: Hash, count: nat, items: Indexed, shard: nat) returns (at: seq<nat>)
    requires count > 0
    ensures GroupPlaces(hash, count, items, shard, GroupOf(hash, count, items, shard), at)
  {
    hide ShardFor, PlaceOk, Projected;
    if items == [] {
      at := [];
    } else {
      var m := |items| - 1;
      var before, group := GroupOf(hash, count, items[..m], shard), GroupOf(hash, count, items, shard);
      at := GroupFollowsBatch(hash, count, items[..m], shard);
      forall g | 0 <= g < |at| ensures PlaceOk(hash, count, items, shard, group, g, at[g]) {
        PlaceStays(hash, count, items, m, shard, before, group, g, at[g]);
      }
      assert forall i :: 0 <= i < m ==> items[..m][i] == items[i];
      if ShardFor(hash, PositionOf(items[m].1), count) == shard {
        LastPlace(hash, count, items, shard);
        var longer := at + [m];
        assert forall i :: i in at ==> i in longer;
        assert longer[|at|] == m;
        at := longer;
      }
    }
  }

  lemma LastPlace(hash: Hash, count: nat, items: Indexed, shard: nat)
    requires count > 0 && items != [] && ShardFor(hash, PositionOf(items[|items| - 1].1), count) == shard
    ensures var group := GroupOf(hash, count, items, shard);
            group != [] && PlaceOk(hash, count, items, shard, group, |group| - 1, |items| - 1)
  {
    hide ShardFor, Projected;
    var group := GroupOf(hash, count, items, shard);
    GroupIsProjection(hash, count, items, shard);
    assert group[..|group|] == group && items[..|items|] == items;
  }

  /** The answer to item `i` of a batch over all shards: the running balance of its key at
      its position in the command order of its shard, `befores[k]` being what shard `k`
      holds when this batch reaches it. */
  ghost predicate BatchAnswers(hash: Hash, befores: seq<Balances>, items: Indexed, i: nat, answer: (nat, ApplyResult))
    requires i < |items| && PowerOfTwo(|befores|)
  {
    ShardForIsRemainder(hash, PositionOf(items[i].1), |befores|);
    Answers(befores[ShardFor(hash, PositionOf(items[i].1), |befores|)], items, i, answer)
  }

  lemma GroupAnswersBatch(hash: Hash, befores: seq<Balances>, items: Indexed, shard: nat, group: Indexed, g: nat, i: nat,
                          answer: (nat, ApplyResult))
    requires PowerOfTwo(|befores|) && |befores| > 0 && shard < |befores|
    requires PlaceOk(hash, |befores|, items, shard, group, g, i)
    requires Answers(befores[shard], group, g, answer)
    ensures BatchAnswers(hash, befores, items, i, answer)
  {
    hide ShardFor;
    ProjectedTotals(hash, |befores|, OpsOf(items[..i + 1]), shard, PositionOf(items[i].1));
  }

  /** `answer` answers some item of the batch. */
  ghost predicate AnswersSome(hash: Hash, befores: seq<Balances>, items: Indexed, answer: (nat, ApplyResult))
    requires PowerOfTwo(|befores|)
  {
    exists i: nat :: i < |items| && BatchAnswers(hash, befores, items, i, answer)
  }

  ghost predicate IsAnswered(hash: Hash, befores: seq<Balances>, items: Indexed, i: nat, completed: seq<(nat, ApplyResult)>)
    requires PowerOfTwo(|befores|) && i < |items|
  {
    exists j :: 0 <= j < |completed| && BatchAnswers(hash, befores, items, i, completed[j])
  }

  /** All answers so far are right, and nothing is missing of the shards done. */
  ghost predicate Answered(hash: Hash, befores: seq<Balances>, items: Indexed, done: nat, completed: seq<(nat, ApplyResult)>)
    requires PowerOfTwo(|befores|) && |befores| > 0
  {
    && (forall j :: 0 <= j < |completed| ==> AnswersSome(hash, befores, items, completed[j]))
    && (forall i: nat :: i < |items| && ShardFor(hash, PositionOf(items[i].1), |befores|) < done ==>
          IsAnswered(hash, befores, items, i, completed))
  }

  lemma AnsweredOneShard(hash: Hash, befores: seq<Balances>, items: Indexed, shard: nat,
                         completed: seq<(nat, ApplyResult)>, reply: seq<(nat, ApplyResult)>)
    requires PowerOfTwo(|befores|) && |befores| > 0 && shard < |befores|
    requires Answered(hash, befores, items, shard, completed)
    requires var group := GroupOf(hash, |befores|, items, shard);
             |reply| == |group| && forall g :: 0 <= g < |group| ==> Answers(befores[shard], group, g, reply[g])
    ensures Answered(hash, befores, items, shard + 1, completed + reply)
  {
    hide ShardFor, BatchAnswers, Answers, Projected;
    var group := GroupOf(hash, |befores|, items, shard);
    var at := GroupFollowsBatch(hash, |befores|, items, shard);
    forall g | 0 <= g < |group| ensures at[g] < |items| && BatchAnswers(hash, befores, items, at[g], reply[g]) {
      assert PlaceOk(hash, |befores|, items, shard, group, g, at[g]);
      GroupAnswersBatch(hash, befores, items, shard, group, g, at[g], reply[g]);
    }
    var all := completed + reply;
    forall j | 0 <= j < |all| ensures AnswersSome(hash, befores, items, all[j]) {
      if j < |completed| {
        assert all[j] == completed[j];
      } else {
        assert all[j] == reply[j - |completed|] && BatchAnswers(hash, befores, items, at[j - |completed|], all[j]);
      }
    }
    forall i: nat | i < |items| && ShardFor(hash, PositionOf(items[i].1), |befores|) < shard + 1
      ensures IsAnswered(hash, befores, items, i, all)
    {
      if ShardFor(hash, PositionOf(items[i].1), |befores|) == shard {
        assert i in at;
        var g :| 0 <= g < |at| && at[g] == i;
        assert all[|completed| + g] == reply[g];
      } else {
        assert IsAnswered(hash, befores, items, i, completed);
        var j :| 0 <= j < |completed| && BatchAnswers(hash, befores, items, i, completed[j]);
        assert all[j] == completed[j];
      }
    }
  }

  lemma NothingAnswered(hash: Hash, befores: seq<Balances>, items: Indexed)
    requires PowerOfTwo(|befores|) && |befores| > 0
    ensures Answered(hash, befores, items, 0, [])
  {
  }

  /** The new operations of a request with their places in it. */
  function FreshItems(ops: seq<Operation>, marks: seq<bool>): Indexed
    requires |marks| == |ops|
  {
    if ops == [] then []
    else
      var m := |ops| - 1;
      FreshItems(ops[..m], marks[..m]) + if marks[m] then [(m, ops[m])] else []
  }

  predicate IsFresh(ops: seq<Operation>, marks: seq<bool>, newItems: Indexed, j: nat)
    requires |marks| == |ops|
  {
    && j < |newItems| && newItems[j].0 < |ops| && marks[newItems[j].0] && newItems[j].1 == ops[newItems[j].0]
    && OpsOf(newItems[..j + 1]) == MarkedOps(ops[..newItems[j].0 + 1], marks[..newItems[j].0 + 1])
  }

  lemma {:induction false} FreshItemsAreMarked(ops: seq<Operation>, marks: seq<bool>)
    requires |marks| == |ops|
    ensures OpsOf(FreshItems(ops, marks)) == MarkedOps(ops, marks)
  {
    if ops != [] {
      var m := |ops| - 1;
      FreshItemsAreMarked(ops[..m], marks[..m]);
      var before := FreshItems(ops[..m], marks[..m]);
      assert OpsOf(before + [(m, ops[m])]) == OpsOf(before) + [ops[m]];
      assert before + [] == before;
    }
  }

  lemma {:induction false} FreshItemsFollow(ops: seq<Operation>, marks: seq<bool>)
    requires |marks| == |ops|
    ensures var f := FreshItems(ops, marks);
            && OpsOf(f) == MarkedOps(ops, marks)
            && (forall j: nat :: j < |f| ==> IsFresh(ops, marks, f, j))
            && (forall i: nat :: i < |ops| && marks[i] ==> exists j: nat :: j < |f| && f[j].0 == i)
  {
    hide MarkedOps;
    FreshItemsAreMarked(ops, marks);
    if ops != [] {
      var m := |ops| - 1;
      FreshItemsFollow(ops[..m], marks[..m]);
      var before, f := FreshItems(ops[..m], marks[..m]), FreshItems(ops, marks);
      assert ops[..m + 1] == ops && marks[..m + 1] == marks;
      assert before + [] == before;
      assert f[..|f|] == f;
      forall j: nat | j < |before| ensures IsFresh(ops, marks, f, j) {
        assert IsFresh(ops[..m], marks[..m], before, j);
        var at := before[j].0;
        assert f[..j + 1] == before[..j + 1] && ops[..m][..at + 1] == ops[..at + 1] && marks[..m][..at + 1] == marks[..at + 1];
      }
      forall i: nat | i < |ops| && marks[i] ensures exists j: nat :: j < |f| && f[j].0 == i {
        if i < m {
          var j: nat :| j < |before| && before[j].0 == i;
          assert f[j] == before[j];
        } else {
          assert f[|before|].0 == i;
        }
      }
    }
  }

  /** The reply for a new operation of a request: the running balance of its key, counting
      the request's own new operations up to and including it. */
  ghost predicate FreshResult(hash: Hash, befores: seq<Balances>, ops: seq<Operation>, marks: seq<bool>, i: nat, r: ApplyResult)
    requires PowerOfTwo(|befores|) && |marks| == |ops| && i < |ops|
  {
    var p := PositionOf(ops[i]);
    ShardForIsRemainder(hash, p, |befores|);
    && r.id == ops[i].id && r.status == Applied
    && r.balance == Balance(befores[ShardFor(hash, p, |befores|)], p) + Total(MarkedOps(ops[..i + 1], marks[..i + 1]), p)
  }

  lemma AnswerIsFreshResult(hash: Hash, befores: seq<Balances>, ops: seq<Operation>, marks: seq<bool>, newItems: Indexed,
                            j: nat, answer: (nat, ApplyResult))
    requires PowerOfTwo(|befores|) && |marks| == |ops| && IsFresh(ops, marks, newItems, j)
    requires BatchAnswers(hash, befores, newItems, j, answer)
    ensures answer.0 == newItems[j].0 && FreshResult(hash, befores, ops, marks, answer.0, answer.1)
  {
    hide ShardFor, Total, MarkedOps;
  }

  ghost predicate OthersPlaced(hash: Hash, others: seq<seq<Operation>>, count: nat) {
    && |others| == count && count > 0
    && forall k, op :: 0 <= k < count && op in others[k] ==> ShardFor(hash, PositionOf(op), count) == k
  }

  /** What each shard holds when a batch reaches it: other requests' commands came first. */
  function Reached(shards: seq<Balances>, others: seq<seq<Operation>>): (r: seq<Balances>)
    requires |others| == |shards|
    ensures |r| == |shards|
  {
    seq(|shards|, k requires 0 <= k < |shards| => AddAll(shards[k], others[k]))
  }

  method GroupAll(hash: Hash, count: nat, items: Indexed) returns (groups: seq<Indexed>)
    requires PowerOfTwo(count) && count > 0
    ensures |groups| == count && forall k :: 0 <= k < count ==> groups[k] == GroupOf(hash, count, items, k)
  {
    hide ShardFor, PowerOfTwo;
    groups := seq(count, _ => []);
    for n := 0 to |items|
      invariant |groups| == count && forall k :: 0 <= k < count ==> groups[k] == GroupOf(hash, count, items[..n], k)
    {
      assert items[..n + 1][..n] == items[..n];
      ShardForIsRemainder(hash, PositionOf(items[n].1), count);
      var shard := ShardFor(hash, PositionOf(items[n].1), count);
      groups := groups[shard := groups[shard] + [items[n]]];
    }
    assert items[..|items|] == items;
  }

  // ----- The same in terms of the items -----

  /** The shard that a position hashes to. */
  ghost function Home(hash: Hash, count: nat, p: Position): nat
    requires count > 0
  {
    hash(p) % count
  }

  /** What a position holds in its shard once the commands queued before are done. */
  ghost function Awaiting(hash: Hash, shards: seq<Balances>, others: seq<seq<Operation>>, p: Position): int
    requires |others| == |shards| > 0
  {
    Balance(shards[Home(hash, |shards|, p)], p) + Total(others[Home(hash, |shards|, p)], p)
  }

  /** The answer to an item: its place, its id, and the running balance of its owner and
      SKU in the order of the batch. */
  ghost predicate ItemAnswer(hash: Hash, shards: seq<Balances>, others: seq<seq<Operation>>, items: Indexed, i: nat, answer: (nat, ApplyResult))
    requires |others| == |shards| > 0 && i < |items|
  {
    var op := items[i].1;
    && answer.0 == items[i].0 && answer.1.id == op.id && answer.1.status == Applied
    && RunningBalance(Awaiting(hash, shards, others, Position(op.owner, op.sku)), items, i, answer.1.balance)
  }

  ghost predicate SomeItemAnswer(hash: Hash, shards: seq<Balances>, others: seq<seq<Operation>>, items: Indexed, answer: (nat, ApplyResult))
    requires |others| == |shards| > 0
  {
    exists i: nat :: i < |items| && ItemAnswer(hash, shards, others, items, i, answer)
  }

  ghost predicate ItemIsAnswered(hash: Hash, shards: seq<Balances>, others: seq<seq<Operation>>, items: Indexed, i: nat,
                                 completed: seq<(nat, ApplyResult)>)
    requires |others| == |shards| > 0 && i < |items|
  {
    exists j :: 0 <= j < |completed| && ItemAnswer(hash, shards, others, items, i, completed[j])
  }

  lemma ReachedBalance(hash: Hash, shards: seq<Balances>, others: seq<seq<Operation>>, p: Position)
    requires |others| == |shards| > 0 && PowerOfTwo(|shards|)
    ensures ShardFor(hash, p, |shards|) == Home(hash, |shards|, p) < |shards|
    ensures Balance(Reached(shards, others)[ShardFor(hash, p, |shards|)], p) == Awaiting(hash, shards, others, p)
  {
    hide AddAll, Total, ShardFor, PowerOfTwo;
    ShardForIsRemainder(hash, p, |shards|);
    var k := ShardFor(hash, p, |shards|);
    BalanceAfterAll(shards[k], others[k], p);
  }

  lemma AnswerOfItem(hash: Hash, shards: seq<Balances>, others: seq<seq<Operation>>, items: Indexed, i: nat, answer: (nat, ApplyResult))
    requires |others| == |shards| > 0 && PowerOfTwo(|shards|) && i < |items|
    requires BatchAnswers(hash, Reached(shards, others), items, i, answer)
    ensures ItemAnswer(hash, shards, others, items, i, answer)
  {
    hide ShardFor, Answers, RunningBalance, Reached, PowerOfTwo;
    var op := items[i].1;
    var p := Position(op.owner, op.sku);
    ReachedBalance(hash, shards, others, p);
    AnswersRun(Reached(shards, others)[ShardFor(hash, p, |shards|)], items, i, answer);
    AnswersPlace(Reached(shards, others)[ShardFor(hash, p, |shards|)], items, i, answer);
  }

  lemma AllAnswered(hash: Hash, shards: seq<Balances>, others: seq<seq<Operation>>, items: Indexed, completed: seq<(nat, ApplyResult)>)
    requires |others| == |shards| > 0 && PowerOfTwo(|shards|)
    requires Answered(hash, Reached(shards, others), items, |shards|, completed)
    ensures forall i: nat :: i < |items| ==> ItemIsAnswered(hash, shards, others, items, i, completed)
    ensures forall j :: 0 <= j < |completed| ==> SomeItemAnswer(hash, shards, others, items, completed[j])
  {
    hide ShardFor, BatchAnswers, ItemAnswer, PowerOfTwo, Reached;
    var befores := Reached(shards, others);
    forall i: nat | i < |items| ensures ItemIsAnswered(hash, shards, others, items, i, completed) {
      ShardForIsRemainder(hash, PositionOf(items[i].1), |shards|);
      assert IsAnswered(hash, befores, items, i, completed);
      var j :| 0 <= j < |completed| && BatchAnswers(hash, befores, items, i, completed[j]);
      AnswerOfItem(hash, shards, others, items, i, completed[j]);
    }
    forall j | 0 <= j < |completed| ensures SomeItemAnswer(hash, shards, others, items, completed[j]) {
      assert AnswersSome(hash, befores, items, completed[j]);
      var i: nat :| i < |items| && BatchAnswers(hash, befores, items, i, completed[j]);
      AnswerOfItem(hash, shards, others, items, i, completed[j]);
    }
  }

  /** The balance of one position after the batch: its own items and no others count. */
  lemma BalanceAfterBatch(hash: Hash, shards: seq<Balances>, others: seq<seq<Operation>>, items: Indexed, owner: Text, sku: Text)
    requires |others| == |shards| > 0 && PowerOfTwo(|shards|)
    ensures var p, after := Position(owner, sku), AfterAll(hash, Reached(shards, others), OpsOf(items));
            Balance(after[Home(hash, |shards|, p)], p)
            == Awaiting(hash, shards, others, p) + SumOver(ItemsFor(items, |items|, owner, sku), ItemDelta(items))
  {
    hide AddAll, Total, ShardFor, PowerOfTwo, Projected, SumOver, ItemsFor, ItemDelta, Reached, Awaiting;
    var p := Position(owner, sku);
    ReachedBalance(hash, shards, others, p);
    var k := ShardFor(hash, p, |shards|);
    BalanceAfterAll(Reached(shards, others)[k], Projected(hash, |shards|, OpsOf(items), k), p);
    ProjectedTotals(hash, |shards|, OpsOf(items), k, p);
    assert items[..|items|] == items;
    ItemsTotal(items, |items|, owner, sku);
  }

  /** How many items fall in the shards below `n`. */
  ghost function ItemsBelow(hash: Hash, count: nat, items: Indexed, n: nat): set<nat>
    requires count > 0
  {
    set i: nat | i < |items| && ShardFor(hash, PositionOf(items[i].1), count) < n
  }

  ghost function ItemsIn(hash: Hash, count: nat, items: Indexed, shard: nat): set<nat>
    requires count > 0
  {
    set i: nat | i < |items| && ShardFor(hash, PositionOf(items[i].1), count) == shard
  }

  lemma {:induction false} GroupSize(hash: Hash, count: nat, items: Indexed, shard: nat)
    requires count > 0
    ensures |GroupOf(hash, count, items, shard)| == |ItemsIn(hash, count, items, shard)|
  {
    hide ShardFor, ItemsIn;
    if items == [] {
      NoItemsIn(hash, count, shard);
    } else {
      GroupSize(hash, count, items[..|items| - 1], shard);
      ItemsInGrow(hash, count, items, shard);
    }
  }

  lemma NoItemsIn(hash: Hash, count: nat, shard: nat)
    requires count > 0
    ensures ItemsIn(hash, count, [], shard) == {}
  {
  }

  lemma ItemsInGrow(hash: Hash, count: nat, items: Indexed, shard: nat)
    requires count > 0 && items != []
    ensures var m := |items| - 1;
            var before := ItemsIn(hash, count, items[..m], shard);
            m !in before && ItemsIn(hash, count, items, shard)
                            == if ShardFor(hash, PositionOf(items[m].1), count) == shard then before + {m} else before
  {
    hide ShardFor;
  }

  lemma OneShardMore(hash: Hash, count: nat, items: Indexed, shard: nat)
    requires count > 0
    ensures |ItemsBelow(hash, count, items, shard + 1)| == |ItemsBelow(hash, count, items, shard)| + |GroupOf(hash, count, items, shard)|
  {
    hide ShardFor, GroupOf;
    GroupSize(hash, count, items, shard);
    assert ItemsBelow(hash, count, items, shard + 1) == ItemsBelow(hash, count, items, shard) + ItemsIn(hash, count, items, shard);
  }

  lemma {:induction false} AllIndices(all: set<nat>, n: nat)
    requires forall i: nat :: i in all <==> i < n
    ensures |all| == n
  {
    if n == 0 { assert all == {}; } else { AllIndices(all - {n - 1}, n - 1); }
  }

  lemma NothingBelow(hash: Hash, count: nat, items: Indexed)
    requires PowerOfTwo(count) && count > 0
    ensures ItemsBelow(hash, count, items, 0) == {} && |ItemsBelow(hash, count, items, count)| == |items|
  {
    hide ShardFor, PowerOfTwo;
    forall i | 0 <= i < |items| ensures ShardFor(hash, PositionOf(items[i].1), count) < count {
      ShardForIsRemainder(hash, PositionOf(items[i].1), count);
    }
    AllIndices(ItemsBelow(hash, count, items, count), |items|);
  }

  /** The reply to a new operation of a request, told from the request itself. */
  lemma FreshReply(hash: Hash, shards: seq<Balances>, others: seq<seq<Operation>>, ops: seq<Operation>, marks: seq<bool>, i: nat, r: ApplyResult)
    requires |others| == |shards| > 0 && PowerOfTwo(|shards|) && |marks| == |ops| && i < |ops|
    requires FreshResult(hash, Reached(shards, others), ops, marks, i, r)
    ensures r == ApplyResult(ops[i].id, Applied, Awaiting(hash, shards, others, Position(ops[i].owner, ops[i].sku))
                   + SumOver((set j: nat | j < i + 1 && marks[j] && ops[j].owner == ops[i].owner && ops[j].sku == ops[i].sku), DeltaAt(ops)))
  {
    hide ShardFor, Total, MarkedOps, SumOver, Awaiting, PowerOfTwo, Reached;
    ReachedBalance(hash, shards, others, Position(ops[i].owner, ops[i].sku));
    TotalOfMarked(ops, marks, i + 1, ops[i].owner, ops[i].sku);
  }

  /** The reply to operation `i` of a request: a new one gets the running balance of its
      owner and SKU, which counts what was queued before and the request's own new operations
      up to it; a duplicate gets the published balance. */
  ghost predicate InRequestOrder(hash: Hash, shards: seq<Balances>, others: seq<seq<Operation>>, ops: seq<Operation>, marks: seq<bool>,
                                 published: Balances, i: nat, r: ApplyResult)
    requires |others| == |shards| > 0 && |marks| == |ops| && i < |ops|
  {
    var p := Position(ops[i].owner, ops[i].sku);
    r == if marks[i] then
           ApplyResult(ops[i].id, Applied, Awaiting(hash, shards, others, p)
             + SumOver((set j: nat | j < i + 1 && marks[j] && ops[j].owner == ops[i].owner && ops[j].sku == ops[i].sku), DeltaAt(ops)))
         else ApplyResult(ops[i].id, Duplicate, Balance(published, p))
  }

  lemma FreshReplies(hash: Hash, shards: seq<Balances>, others: seq<seq<Operation>>, ops: seq<Operation>, marks: seq<bool>,
                     published: Balances, replies: seq<ApplyResult>)
    requires |others| == |shards| > 0 && PowerOfTwo(|shards|) && |marks| == |ops| == |replies|
    requires forall i: nat :: i < |ops| ==>
               if marks[i] then FreshResult(hash, Reached(shards, others), ops, marks, i, replies[i])
               else replies[i] == DuplicateResult(published, ops[i])
    ensures forall i: nat :: i < |ops| ==> InRequestOrder(hash, shards, others, ops, marks, published, i, replies[i])
  {
    hide SumOver, Awaiting, PowerOfTwo, Reached, FreshResult;
    forall i: nat | i < |ops| ensures InRequestOrder(hash, shards, others, ops, marks, published, i, replies[i]) {
      if marks[i] { FreshReply(hash, shards, others, ops, marks, i, replies[i]); }
    }
  }

  lemma {:induction false} NothingMarkedIff(ops: seq<Operation>, marks: seq<bool>)
    requires |marks| == |ops|
    ensures MarkedOps(ops, marks) == [] <==> forall i :: 0 <= i < |ops| ==> !marks[i]
  {
    if ops != [] {
      var m := |ops| - 1;
      NothingMarkedIff(ops[..m], marks[..m]);
      assert forall i :: 0 <= i < m ==> marks[..m][i] == marks[i];
    }
  }

  class StateShards {
    const hash: Hash
    var shards: seq<Balances>

    constructor (hash: Hash, initial: seq<Balances>)
      requires Placed(hash, initial)
      ensures Valid() && this.hash == hash && shards == initial
    {
      this.hash, shards := hash, initial;
    }

    ghost predicate Valid()
      reads this
    {
      Placed(hash, shards)
    }

    /** apply_batched: append to the WAL, group by shard, one command each, gather the
        answers. `logged` says whether an append succeeds; without operations there is none.
        `others[k]` are the operations that other requests' commands put in front of this
        batch in the queue of shard `k`. */
    method ApplyBatched(items: Indexed, logged: bool, others: seq<seq<Operation>>) returns (r: Result<seq<(nat, ApplyResult)>>)
      requires Valid() && OthersPlaced(hash, others, |shards|)
      modifies this
      ensures Valid() && PowerOfTwo(|old(shards)|)
      ensures r.Ok? <==> logged || items == []
      ensures r.Err? ==> shards == old(shards)
      ensures r.Ok? ==> shards == AfterAll(hash, Reached(old(shards), others), OpsOf(items))
                        && Answered(hash, Reached(old(shards), others), items, |shards|, r.value)
      ensures r.Ok? ==> |shards| == |old(shards)| && forall owner, sku ::
                Balance(shards[Home(hash, |shards|, Position(owner, sku))], Position(owner, sku))
                == Awaiting(hash, old(shards), others, Position(owner, sku)) + SumOver(ItemsFor(items, |items|, owner, sku), ItemDelta(items))
      ensures r.Ok? ==> |r.value| == |items|
                        && (forall i: nat :: i < |items| ==> ItemIsAnswered(hash, old(shards), others, items, i, r.value))
                        && (forall j :: 0 <= j < |items| ==> SomeItemAnswer(hash, old(shards), others, items, r.value[j]))
    {
      if items != [] && !logged { return Err; }
      ghost var before := shards;
      var completed := Dispatch(items, others);
      r := Ok(completed);
      hide AfterAll, Answered, Reached, PowerOfTwo, ItemIsAnswered, SomeItemAnswer, Awaiting, SumOver, ItemsFor, ItemDelta;
      AllAnswered(hash, before, others, items, completed);
      assert |AfterAll(hash, Reached(before, others), OpsOf(items))| == |before|;
      forall owner, sku
        ensures Balance(shards[Home(hash, |shards|, Position(owner, sku))], Position(owner, sku))
                == Awaiting(hash, before, others, Position(owner, sku)) + SumOver(ItemsFor(items, |items|, owner, sku), ItemDelta(items))
      {
        BalanceAfterBatch(hash, before, others, items, owner, sku);
      }
    }

    method Dispatch(items: Indexed, others: seq<seq<Operation>>) returns (completed: seq<(nat, ApplyResult)>)
      requires Valid() && OthersPlaced(hash, others, |shards|)
      modifies this
      ensures Valid() && PowerOfTwo(|old(shards)|)
      ensures shards == AfterAll(hash, Reached(old(shards), others), OpsOf(items))
      ensures Answered(hash, Reached(old(shards), others), items, |shards|, completed) && |completed| == |items|
    {
      hide AddAll, ShardFor, Answered, Answers, Projected, PowerOfTwo, ItemsBelow, SumOver, RunningBalance, ItemsFor;
      var count := |shards|;
      ghost var befores := Reached(shards, others);
      var groups := GroupAll(hash, count, items);
      completed := [];
      NothingAnswered(hash, befores, items);
      ReachedIsPlaced(hash, shards, others);
      ShardedIsUnsharded(hash, befores, OpsOf(items));
      NothingBelow(hash, count, items);
      for k := 0 to count
        invariant |shards| == count
        invariant forall j :: 0 <= j < k ==> shards[j] == AddAll(befores[j], Projected(hash, count, OpsOf(items), j))
        invariant forall j :: k <= j < count ==> shards[j] == old(shards)[j]
        invariant Answered(hash, befores, items, k, completed) && |completed| == |ItemsBelow(hash, count, items, k)|
      {
        var balances := AddAll(shards[k], others[k]);
        var reply := [];
        if groups[k] != [] {
          balances, reply := ApplyGroup(balances, groups[k]);
        } else {
          NothingAdded(balances);
        }
        GroupIsProjection(hash, count, items, k);
        assert OpsOf([]) == [];
        AnsweredOneShard(hash, befores, items, k, completed, reply);
        OneShardMore(hash, count, items, k);
        shards := shards[k := balances];
        completed := completed + reply;
      }
      assert shards == AfterAll(hash, befores, OpsOf(items));
    }

    /** apply_preflight_batch: one reply per operation of the request, in request order; a
        duplicate is answered from the published balances. If the WAL refuses the new
        operations the whole request fails and no balance changes. */
    method ApplyPreflightBatch(ops: seq<Operation>, marks: seq<bool>, published: Balances, logged: bool,
                               others: seq<seq<Operation>>)
      returns (r: Result<seq<ApplyResult>>)
      requires Valid() && |marks| == |ops| && OthersPlaced(hash, others, |shards|)
      modifies this
      ensures Valid() && PowerOfTwo(|old(shards)|)
      ensures r.Ok? <==> logged || forall i :: 0 <= i < |ops| ==> !marks[i]
      ensures r.Err? ==> shards == old(shards)
      ensures r.Ok? ==> |r.value| == |ops| && shards == AfterAll(hash, Reached(old(shards), others), MarkedOps(ops, marks))
      ensures r.Ok? ==> forall i: nat :: i < |ops| ==> InRequestOrder(hash, old(shards), others, ops, marks, published, i, r.value[i])
    {
      hide SumOver, Awaiting, InRequestOrder, DuplicateResult, ItemIsAnswered, SomeItemAnswer, ItemsFor, ItemDelta, FreshItems;
      NothingMarkedIff(ops, marks);
      ghost var was := shards;
      ghost var befores := Reached(shards, others);
      hide AddAll, Answered, FreshResult, Projected, PowerOfTwo, MarkedOps, Reached, Placed, OthersPlaced, AfterAll;
      var newItems, results := Sort(ops, marks, published);
      FreshItemsFollow(ops, marks);
      var applied := ApplyBatched(newItems, logged, others);
      if applied.Err? { return Err; }
      var completed := applied.value;
      assert |befores| == |shards| && PowerOfTwo(|befores|) && |befores| > 0 by { ReachedLength(hash, old(shards), others); }
      results := Deliver(hash, befores, ops, marks, newItems, completed, results);
      r := Collect(results);
      FreshReplies(hash, was, others, ops, marks, published, r.value);
    }
  }

  /** Duplicates are answered at once, new operations are set aside. */
  method Sort(ops: seq<Operation>, marks: seq<bool>, published: Balances)
    returns (newItems: Indexed, results: seq<Option<ApplyResult>>)
    requires |marks| == |ops|
    ensures newItems == FreshItems(ops, marks) && |results| == |ops|
    ensures forall i :: 0 <= i < |ops| ==> results[i] == if marks[i] then None else Some(DuplicateResult(published, ops[i]))
  {
    results, newItems := seq(|ops|, _ => None), [];
    for i := 0 to |ops|
      invariant newItems == FreshItems(ops[..i], marks[..i]) && |results| == |ops|
      invariant forall j :: 0 <= j < |ops| ==> results[j] == if j < i && !marks[j] then Some(DuplicateResult(published, ops[j])) else None
    {
      assert ops[..i + 1][..i] == ops[..i] && marks[..i + 1][..i] == marks[..i];
      if marks[i] {
        newItems := newItems + [(i, ops[i])];
      } else {
        results := results[i := Some(DuplicateResult(published, ops[i]))];
      }
    }
    assert ops[..|ops|] == ops && marks[..|ops|] == marks;
  }

  method Collect(results: seq<Option<ApplyResult>>) returns (r: Result<seq<ApplyResult>>)
    ensures r.Ok? <==> forall i :: 0 <= i < |results| ==> results[i].Some?
    ensures r.Ok? ==> |r.value| == |results| && forall i :: 0 <= i < |results| ==> results[i] == Some(r.value[i])
  {
    var values: seq<ApplyResult> := [];
    for i := 0 to |results|
      invariant |values| == i && forall j :: 0 <= j < i ==> results[j] == Some(values[j])
    {
      if results[i].None? { return Err; }
      values := values + [results[i].value];
    }
    r := Ok(values);
  }

  function DuplicateResult(published: Balances, op: Operation): ApplyResult {
    ApplyResult(op.id, Duplicate, Balance(published, PositionOf(op)))
  }

  lemma ReachedLength(hash: Hash, shards: seq<Balances>, others: seq<seq<Operation>>)
    requires Placed(hash, shards) && OthersPlaced(hash, others, |shards|)
    ensures |Reached(shards, others)| == |shards| > 0 && PowerOfTwo(|shards|)
  {
    hide PowerOfTwo;
  }

  /** The answers of the shards go to their places; none of the new operations is left
      without one. */
  method Deliver(ghost hash: Hash, ghost befores: seq<Balances>, ghost ops: seq<Operation>, ghost marks: seq<bool>,
                 ghost newItems: Indexed, completed: seq<(nat, ApplyResult)>, given: seq<Option<ApplyResult>>)
    returns (results: seq<Option<ApplyResult>>)
    requires |marks| == |ops| == |given| && PowerOfTwo(|befores|) && |befores| > 0 && newItems == FreshItems(ops, marks)
    requires Answered(hash, befores, newItems, |befores|, completed)
    ensures |results| == |ops|
    ensures forall i: nat :: i < |ops| ==>
              if marks[i] then results[i].Some? && FreshResult(hash, befores, ops, marks, i, results[i].value)
              else results[i] == given[i]
  {
    hide FreshResult, PowerOfTwo, MarkedOps, BatchAnswers, IsFresh, FreshItems, ShardFor;
    FreshItemsFollow(ops, marks);
    FreshIndices(ops, marks, newItems);
    results := given;
    for n := 0 to |completed|
      invariant |results| == |ops|
      invariant forall i: nat :: i < |ops| && !marks[i] ==> results[i] == given[i]
      invariant forall m :: 0 <= m < n ==>
                  completed[m].0 < |ops| && results[completed[m].0].Some?
      invariant forall i: nat :: i < |ops| && marks[i] && results[i] != given[i] ==>
                  results[i].Some? && FreshResult(hash, befores, ops, marks, i, results[i].value)
      invariant forall m :: 0 <= m < n ==>
                  marks[completed[m].0] && results[completed[m].0].Some?
                  && FreshResult(hash, befores, ops, marks, completed[m].0, results[completed[m].0].value)
    {
      var (index, result) := completed[n];
      assert AnswersSome(hash, befores, newItems, completed[n]);
      ghost var j: nat :| j < |newItems| && BatchAnswers(hash, befores, newItems, j, completed[n]);
      AnswerIsFreshResult(hash, befores, ops, marks, newItems, j, completed[n]);
      results := results[index := Some(result)];
    }
    forall i: nat | i < |ops| && marks[i]
      ensures results[i].Some? && FreshResult(hash, befores, ops, marks, i, results[i].value)
    {
      var j: nat :| j < |newItems| && newItems[j].0 == i;
      ShardForIsRemainder(hash, PositionOf(newItems[j].1), |befores|);
      assert IsAnswered(hash, befores, newItems, j, completed);
      var m :| 0 <= m < |completed| && BatchAnswers(hash, befores, newItems, j, completed[m]);
      AnswerIsFreshResult(hash, befores, ops, marks, newItems, j, completed[m]);
      assert completed[m].0 == i;
    }
  }

  lemma FreshIndices(ops: seq<Operation>, marks: seq<bool>, newItems: Indexed)
    requires |marks| == |ops| && forall j: nat :: j < |newItems| ==> IsFresh(ops, marks, newItems, j)
    ensures forall j: nat :: j < |newItems| ==> newItems[j].0 < |ops| && marks[newItems[j].0]
  {
    forall j: nat | j < |newItems| ensures newItems[j].0 < |ops| && marks[newItems[j].0] {
      assert IsFresh(ops, marks, newItems, j);
    }
  }

  // ----- Publication -----

  const PUBLISH_BATCH: nat := 256

  function Joined(commands: seq<seq<Operation>>): seq<Operation> {
    if commands == [] then [] else Joined(commands[..|commands| - 1]) + commands[|commands| - 1]
  }

  /** The updates of these commands that are about this owner and SKU. */
  ghost function UpdatesFor(commands: seq<seq<Operation>>, owner: Text, sku: Text): set<(nat, nat)> {
    set c: nat, u: nat | c < |commands| && u < |commands[c]| && commands[c][u].owner == owner && commands[c][u].sku == sku :: (c, u)
  }

  ghost function UpdateDelta(commands: seq<seq<Operation>>): ((nat, nat)) -> int {
    (at: (nat, nat)) => if at.0 < |commands| then DeltaAt(commands[at.0])(at.1) else 0
  }

  lemma {:induction false} JoinedTotal(commands: seq<seq<Operation>>, owner: Text, sku: Text)
    ensures Total(Joined(commands), Position(owner, sku)) == SumOver(UpdatesFor(commands, owner, sku), UpdateDelta(commands))
  {
    hide SumOver, Total;
    if commands == [] {
      assert UpdatesFor(commands, owner, sku) == {};
      SumOfNothing(UpdateDelta(commands));
      NothingTotals(Position(owner, sku));
    } else {
      var m := |commands| - 1;
      var last := set u | u in Concerned(commands[m], owner, sku) :: (m, u);
      JoinedTotal(commands[..m], owner, sku);
      TotalOfConcat(Joined(commands[..m]), commands[m], Position(owner, sku));
      TotalIsSum(commands[m], owner, sku);
      SumOfImage<nat, (nat, nat)>(Concerned(commands[m], owner, sku), DeltaAt(commands[m]), last, UpdateDelta(commands), (u: nat) => (m, u));
      SameWeights(UpdatesFor(commands[..m], owner, sku), UpdateDelta(commands[..m]), UpdateDelta(commands));
      assert UpdatesFor(commands, owner, sku) == UpdatesFor(commands[..m], owner, sku) + last;
      SumOfParts(UpdatesFor(commands[..m], owner, sku), last, UpdateDelta(commands));
    }
  }

  /** One round of the balance publisher: the first command and up to 255 of the `waiting`
      ones, all of them whole, under one write lock. */
  method PublishRound(published: Balances, queue: seq<seq<Operation>>, waiting: nat) returns (after: Balances, done: nat)
    requires queue != []
    ensures 1 <= done <= |queue| && done <= 256
    ensures done == |queue| || done == 256 || done == 1 + waiting
    ensures forall owner, sku :: Balance(after, Position(owner, sku))
              == Balance(published, Position(owner, sku)) + SumOver(UpdatesFor(queue[..done], owner, sku), UpdateDelta(queue[..done]))
  {
    hide AddAll, SumOver, UpdatesFor, UpdateDelta;
    done := 1;
    while done < PUBLISH_BATCH && done < |queue| && done <= waiting
      invariant 1 <= done <= |queue| && done <= PUBLISH_BATCH && done <= 1 + waiting
    {
      done := done + 1;
    }
    after := published;
    assert queue[..0] == [];
    NothingAdded(published);
    for c := 0 to done
      invariant after == AddAll(published, Joined(queue[..c]))
    {
      ghost var before := Joined(queue[..c]);
      assert queue[..c + 1][..c] == queue[..c];
      assert before + queue[c][..0] == before;
      for u := 0 to |queue[c]|
        invariant after == AddAll(published, before + queue[c][..u])
      {
        AddedOneMore(published, before, queue[c], u);
        after := Add(after, queue[c][u]);
      }
      assert queue[c][..|queue[c]|] == queue[c];
    }
    forall owner, sku
      ensures Balance(after, Position(owner, sku))
              == Balance(published, Position(owner, sku)) + SumOver(UpdatesFor(queue[..done], owner, sku), UpdateDelta(queue[..done]))
    {
      BalanceAfterAll(published, Joined(queue[..done]), Position(owner, sku));
      JoinedTotal(queue[..done], owner, sku);
    }
  }

  lemma AddedOneMore(b: Balances, before: seq<Operation>, ops: seq<Operation>, u: nat)
    requires u < |ops|
    ensures AddAll(b, before + ops[..u + 1]) == Add(AddAll(b, before + ops[..u]), ops[u])
  {
    var all := before + ops[..u + 1];
    assert all[..|all| - 1] == before + ops[..u];
  }

  lemma ReachedIsPlaced(hash: Hash, shards: seq<Balances>, others: seq<seq<Operation>>)
    requires Placed(hash, shards) && OthersPlaced(hash, others, |shards|)
    ensures Placed(hash, Reached(shards, others))
  {
    hide ShardFor, AddAll, PowerOfTwo;
    forall k, p | 0 <= k < |shards| && p in Reached(shards, others)[k] ensures ShardFor(hash, p, |shards|) == k {
      BalanceAfterAll(shards[k], others[k], p);
      if Touching(others[k], p) > 0 {
        var op := Toucher(others[k], p);
      }
    }
  }

  lemma {:induction false} Toucher(ops: seq<Operation>, p: Position) returns (op: Operation)
    requires Touching(ops, p) > 0
    ensures op in ops && PositionOf(op) == p
  {
    var m := |ops| - 1;
    if PositionOf(ops[m]) == p { op := ops[m]; } else { op := Toucher(ops[..m], p); }
  }

  // ----- Snapshot and start -----

  datatype BalanceEntry = BalanceEntry(position: Position, balance: int)

  /** Inserting snapshot entries one after the other. */
  function FromEntries(entries: seq<BalanceEntry>): Balances {
    if entries == [] then map[]
    else FromEntries(entries[..|entries| - 1])[entries[|entries| - 1].position := entries[|entries| - 1].balance]
  }

  /** The last entry of a position counts. */
  lemma {:induction false} FromEntriesHolds(entries: seq<BalanceEntry>, i: nat)
    requires i < |entries| && forall j :: i < j < |entries| ==> entries[j].position != entries[i].position
    ensures entries[i].position in FromEntries(entries) && FromEntries(entries)[entries[i].position] == entries[i].balance
  {
    hide Utf8;
    var m := |entries| - 1;
    if i < m {
      assert forall j :: i < j < m ==> entries[..m][j] == entries[j];
      FromEntriesHolds(entries[..m], i);
      assert entries[m].position != entries[i].position;
    }
  }

  /** A position without an entry holds nothing. */
  lemma {:induction false} FromEntriesHoldsOnly(entries: seq<BalanceEntry>, p: Position)
    requires forall i :: 0 <= i < |entries| ==> entries[i].position != p
    ensures p !in FromEntries(entries)
  {
    hide Utf8;
    if entries != [] { FromEntriesHoldsOnly(entries[..|entries| - 1], p); }
  }

  /** Changing one key in its own shard changes that key in the union and nothing else. */
  lemma UnionAfterPut(hash: Hash, shards: seq<Balances>, p: Position, balance: int)
    requires Placed(hash, shards) && |shards| > 0 && ShardFor(hash, p, |shards|) < |shards|
    ensures var k := ShardFor(hash, p, |shards|);
            var after := shards[k := shards[k][p := balance]];
            Placed(hash, after) && Union(after) == Union(shards)[p := balance]
  {
    hide ShardFor, Union, PowerOfTwo;
    var k := ShardFor(hash, p, |shards|);
    var after := shards[k := shards[k][p := balance]];
    forall x ensures (x in Union(after) <==> x in Union(shards)[p := balance])
                     && Balance(Union(after), x) == Balance(Union(shards)[p := balance], x) {
      ShardForIsRemainder(hash, x, |shards|);
      UnionLookup(shards, ShardFor(hash, x, |shards|), x);
      UnionLookup(after, ShardFor(hash, x, |shards|), x);
    }
    SameBalances(Union(after), Union(shards)[p := balance]);
  }

  lemma {:induction false} UnionOfNothing(shards: seq<Balances>)
    requires forall k :: 0 <= k < |shards| ==> shards[k] == map[]
    ensures Union(shards) == map[]
  {
    if shards != [] { UnionOfNothing(shards[..|shards| - 1]); }
  }

  type Pair = (Text, Content)
  type Index = map<Text, Content>

  const CHUNK: nat := 100_000

  /** insert_many: later pairs overwrite earlier ones. */
  function InsertAll(index: Index, pairs: seq<Pair>): Index {
    if pairs == [] then index
    else InsertAll(index, pairs[..|pairs| - 1])[pairs[|pairs| - 1].0 := pairs[|pairs| - 1].1]
  }

  function Elements(pairs: seq<Pair>): set<Pair> { set p | p in pairs }

  function PairsOf(ops: seq<Operation>): set<Pair> { set op | op in ops :: (op.id, Fingerprint(op)) }

  predicate Names(given: set<Pair>, id: Text) { exists p :: p in given && p.0 == id }

  /** The index knows what it knew before and the given ids, each with a content that was
      given for it. */
  ghost predicate Records(index: Index, before: Index, given: set<Pair>) {
    && (forall id :: id in index <==> id in before || Names(given, id))
    && (forall id :: id in index ==>
          if Names(given, id) then (id, index[id]) in given else id in before && index[id] == before[id])
  }

  lemma {:induction false} RecordsMore(index: Index, before: Index, given: set<Pair>, pairs: seq<Pair>)
    requires Records(index, before, given)
    ensures Records(InsertAll(index, pairs), before, given + Elements(pairs))
  {
    if pairs == [] {
      assert given + Elements(pairs) == given;
    } else {
      var m := |pairs| - 1;
      RecordsMore(index, before, given, pairs[..m]);
      assert pairs == pairs[..m] + [pairs[m]];
      RecordsOneMore(InsertAll(index, pairs[..m]), before, given + Elements(pairs[..m]), pairs[m]);
      assert given + Elements(pairs) == given + Elements(pairs[..m]) + {pairs[m]};
    }
  }

  lemma RecordsOneMore(index: Index, before: Index, given: set<Pair>, p: Pair)
    requires Records(index, before, given)
    ensures Records(index[p.0 := p.1], before, given + {p})
  {
    forall id ensures Names(given + {p}, id) <==> Names(given, id) || id == p.0 {
      if id == p.0 { assert p in given + {p}; }
      if Names(given, id) { var x :| x in given && x.0 == id; assert x in given + {p}; }
    }
  }

  /** Store::start: the snapshot is dealt out to the shards, then every id of the recovered
      WAL is counted once, at its first record. All ids, also those that older snapshots
      carry, go to the dedup index. */
  method Start(hash: Hash, count: nat, snapshot: seq<BalanceEntry>, inherited: seq<Pair>, recovered: seq<Operation>,
               stored: Index)
    returns (shards: seq<Balances>, index: Index)
    requires PowerOfTwo(count) && count > 0
    ensures |shards| == count && Placed(hash, shards)
    ensures Union(shards) == AddAll(FromEntries(snapshot), FirstPerId(recovered))
    ensures forall owner, sku ::
              Balance(shards[Home(hash, count, Position(owner, sku))], Position(owner, sku))
              == Balance(FromEntries(snapshot), Position(owner, sku)) + SumOver(FirstsFor(recovered, owner, sku), DeltaAt(recovered))
    ensures Records(index, stored, Elements(inherited) + PairsOf(FirstPerId(recovered)))
  {
    hide ShardFor, Union, PowerOfTwo, Utf8, Records, Placed, FirstPerId;
    ghost var given: set<Pair>;
    var rest: seq<Pair>;
    index, rest, given := Inherit(inherited, stored);
    shards := Deal(hash, count, snapshot);
    shards, index := CountRecovered(hash, shards, recovered, stored, index, given);
    RecordsMore(index, stored, given + PairsOf(FirstPerId(recovered)), rest);
    index := InsertAll(index, rest);
    assert given + PairsOf(FirstPerId(recovered)) + Elements(rest) == Elements(inherited) + PairsOf(FirstPerId(recovered));
    hide SumOver, AddAll, Home;
    forall owner, sku
      ensures Balance(shards[Home(hash, count, Position(owner, sku))], Position(owner, sku))
              == Balance(FromEntries(snapshot), Position(owner, sku)) + SumOver(FirstsFor(recovered, owner, sku), DeltaAt(recovered))
    {
      StartsWith(hash, shards, FromEntries(snapshot), recovered, owner, sku);
    }
  }

  lemma StartsWith(hash: Hash, shards: seq<Balances>, saved: Balances, recovered: seq<Operation>, owner: Text, sku: Text)
    requires Placed(hash, shards) && |shards| > 0 && Union(shards) == AddAll(saved, FirstPerId(recovered))
    ensures var p := Position(owner, sku);
            Balance(shards[Home(hash, |shards|, p)], p) == Balance(saved, p) + SumOver(FirstsFor(recovered, owner, sku), DeltaAt(recovered))
  {
    hide SumOver, AddAll, PowerOfTwo, ShardFor, Union, Total, FirstPerId;
    var p := Position(owner, sku);
    ShardForIsRemainder(hash, p, |shards|);
    UnionLookup(shards, ShardFor(hash, p, |shards|), p);
    BalanceAfterAll(saved, FirstPerId(recovered), p);
    TotalOfFirsts(recovered, owner, sku);
  }

  /** The ids of the snapshot go to the index in chunks; the last chunk waits. */
  method Inherit(inherited: seq<Pair>, stored: Index) returns (index: Index, rest: seq<Pair>, ghost given: set<Pair>)
    ensures Records(index, stored, given) && given + Elements(rest) == Elements(inherited)
  {
    index, rest, given := stored, [], {};
    for i := 0 to |inherited|
      invariant Records(index, stored, given) && given + Elements(rest) == Elements(inherited[..i])
    {
      assert inherited[..i + 1] == inherited[..i] + [inherited[i]];
      assert Elements(rest + [inherited[i]]) == Elements(rest) + {inherited[i]};
      assert Elements(inherited[..i + 1]) == Elements(inherited[..i]) + {inherited[i]};
      rest := rest + [inherited[i]];
      if |rest| >= CHUNK {
        RecordsMore(index, stored, given, rest);
        index, given, rest := InsertAll(index, rest), given + Elements(rest), [];
      }
    }
    assert inherited[..|inherited|] == inherited;
  }

  method Deal(hash: Hash, count: nat, snapshot: seq<BalanceEntry>) returns (shards: seq<Balances>)
    requires PowerOfTwo(count) && count > 0
    ensures |shards| == count && Placed(hash, shards) && Union(shards) == FromEntries(snapshot)
  {
    hide ShardFor, Union, PowerOfTwo;
    shards := seq(count, _ => map[]);
    UnionOfNothing(shards);
    for i := 0 to |snapshot|
      invariant |shards| == count && Placed(hash, shards) && Union(shards) == FromEntries(snapshot[..i])
    {
      assert snapshot[..i + 1][..i] == snapshot[..i];
      var entry := snapshot[i];
      ShardForIsRemainder(hash, entry.position, count);
      UnionAfterPut(hash, shards, entry.position, entry.balance);
      var k := ShardFor(hash, entry.position, count);
      shards := shards[k := shards[k][entry.position := entry.balance]];
    }
    assert snapshot[..|snapshot|] == snapshot;
  }

  method CountRecovered(hash: Hash, dealt: seq<Balances>, recovered: seq<Operation>, ghost stored: Index, known: Index,
                        ghost given: set<Pair>)
    returns (shards: seq<Balances>, index: Index)
    requires Placed(hash, dealt) && |dealt| > 0 && Records(known, stored, given)
    ensures |shards| == |dealt| && Placed(hash, shards)
    ensures Union(shards) == AddAll(Union(dealt), FirstPerId(recovered))
    ensures Records(index, stored, given + PairsOf(FirstPerId(recovered)))
  {
    hide ShardFor, Union, PowerOfTwo, Utf8, Placed, FirstPerId, AddAll, HasId, Records;
    shards, index := dealt, known;
    var ids: set<Text>, entries: seq<Pair> := {}, [];
    ghost var done: set<Pair> := {};
    NothingCounted(Union(dealt));
    assert given + done == given;
    for i := 0 to |recovered|
      invariant |shards| == |dealt| && Placed(hash, shards)
      invariant Union(shards) == AddAll(Union(dealt), FirstPerId(recovered[..i]))
      invariant forall id :: id in ids <==> HasId(recovered[..i], id)
      invariant Records(index, stored, given + done) && done + Elements(entries) == PairsOf(FirstPerId(recovered[..i]))
    {
      var op := recovered[i];
      assert recovered[..i + 1] == recovered[..i] + [op];
      forall id { HasIdOfOneMore(recovered[..i], op, id); }
      CountedOneMore(Union(dealt), recovered[..i], op);
      if op.id !in ids {
        ids := ids + {op.id};
        PlacedShardFor(hash, shards, PositionOf(op));
        UnionAfterAdd(hash, shards, op);
        var k := ShardFor(hash, PositionOf(op), |shards|);
        shards := shards[k := Add(shards[k], op)];
        OnePairMore(FirstPerId(recovered[..i]), op, entries);
        entries := entries + [(op.id, Fingerprint(op))];
        if |entries| >= CHUNK {
          index, done, entries := Flush(index, stored, given, done, entries);
        }
      }
    }
    assert recovered[..|recovered|] == recovered;
    index, done, entries := Flush(index, stored, given, done, entries);
    assert done + Elements([]) == done;
  }

  method Flush(known: Index, ghost stored: Index, ghost given: set<Pair>, ghost done: set<Pair>, entries: seq<Pair>)
    returns (index: Index, ghost done': set<Pair>, empty: seq<Pair>)
    requires Records(known, stored, given + done)
    ensures Records(index, stored, given + done') && done' == done + Elements(entries) && empty == []
    ensures done' + Elements(empty) == done'
  {
    hide Records;
    RecordsMore(known, stored, given + done, entries);
    index, done', empty := InsertAll(known, entries), done + Elements(entries), [];
    assert given + done + Elements(entries) == given + done';
  }

  lemma OnePairMore(ops: seq<Operation>, op: Operation, entries: seq<Pair>)
    ensures PairsOf(ops + [op]) == PairsOf(ops) + {(op.id, Fingerprint(op))}
    ensures Elements(entries + [(op.id, Fingerprint(op))]) == Elements(entries) + {(op.id, Fingerprint(op))}
  {
  }

  lemma NothingCounted(b: Balances)
    ensures FirstPerId([]) == [] && AddAll(b, []) == b
    ensures forall id :: !HasId([], id)
  {
  }

  lemma PlacedShardFor(hash: Hash, shards: seq<Balances>, p: Position)
    requires Placed(hash, shards)
    ensures |shards| > 0 && ShardFor(hash, p, |shards|) < |shards|
  {
    ShardForIsRemainder(hash, p, |shards|);
  }

  lemma CountedOneMore(b: Balances, ops: seq<Operation>, op: Operation)
    ensures FirstPerId(ops + [op]) == if HasId(ops, op.id) then FirstPerId(ops) else FirstPerId(ops) + [op]
    ensures AddAll(b, FirstPerId(ops) + [op]) == Add(AddAll(b, FirstPerId(ops)), op)
  {
    assert (ops + [op])[..|ops|] == ops;
    var f := FirstPerId(ops);
    assert (f + [op])[..|f|] == f;
  }

  lemma UnionAfterAdd(hash: Hash, shards: seq<Balances>, op: Operation)
    requires Placed(hash, shards) && |shards| > 0 && ShardFor(hash, PositionOf(op), |shards|) < |shards|
    ensures var k := ShardFor(hash, PositionOf(op), |shards|);
            var after := shards[k := Add(shards[k], op)];
            Placed(hash, after) && Union(after) == Add(Union(shards), op)
  {
    hide ShardFor, Union, PowerOfTwo;
    var p := PositionOf(op);
    var k := ShardFor(hash, p, |shards|);
    UnionLookup(shards, k, p);
    UnionAfterPut(hash, shards, p, Balance(shards[k], p) + op.delta);
  }

  /** The Dump commands of a snapshot: every balance of every shard, in any order. What is
      dumped under one shard count is what `Start` rebuilds under any other. */
  method DumpAll(hash: Hash, shards: seq<Balances>) returns (entries: seq<BalanceEntry>)
    requires Placed(hash, shards)
    ensures FromEntries(entries) == Union(shards)
  {
    hide ShardFor, PowerOfTwo;
    entries := [];
    for k := 0 to |shards|
      invariant FromEntries(entries) == Union(shards[..k])
    {
      assert shards[..k + 1][..k] == shards[..k];
      ghost var before := FromEntries(entries);
      var left := shards[k].Keys;
      while left != {}
        invariant left <= shards[k].Keys
        invariant forall p :: p in FromEntries(entries) <==> p in before || p in shards[k].Keys - left
        invariant forall p :: p in shards[k].Keys - left ==> FromEntries(entries)[p] == shards[k][p]
        invariant forall p :: p in before && p !in shards[k] ==> FromEntries(entries)[p] == before[p]
        decreases left
      {
        var p :| p in left;
        ghost var was := entries;
        entries := entries + [BalanceEntry(p, shards[k][p])];
        assert entries[..|entries| - 1] == was;
        left := left - {p};
      }
      assert FromEntries(entries) == before + shards[k];
    }
    assert shards[..|shards|] == shards;
  }
}
