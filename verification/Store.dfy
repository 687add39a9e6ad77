/** The lock sections of the dedup map (src/state.rs) as they run, loop by loop, each
    proved to be the protocol step of the same name. */
module Store {
  import opened Model
  import P = Protocol

  // ----- Duplicates inside one request -----

  ghost predicate Ascending(s: seq<nat>) { forall a, b :: 0 <= a < b < |s| ==> s[a] < s[b] }

  ghost predicate FirstsUpTo(ops: seq<Operation>, n: nat, unique: seq<nat>)
    requires n <= |ops|
  {
    && Ascending(unique)
    && forall i: nat :: i in unique <==> i < n && P.IsFirst(ops, i)
  }

  ghost predicate Remembers(ops: seq<Operation>, n: nat, first: map<Text, Content>)
    requires n <= |ops|
  {
    && (forall i: nat :: i < n ==> ops[i].id in first && first[ops[i].id] == Fingerprint(ops[i]))
    && (forall id :: id in first ==> exists i: nat :: i < n && ops[i].id == id)
  }

  lemma NewId(ops: seq<Operation>, i: nat, unique: seq<nat>, first: map<Text, Content>)
    requires i < |ops| && FirstsUpTo(ops, i, unique) && Remembers(ops, i, first) && ops[i].id !in first
    ensures FirstsUpTo(ops, i + 1, unique + [i]) && Remembers(ops, i + 1, first[ops[i].id := Fingerprint(ops[i])])
  {
    hide Utf8;
    assert forall j: nat :: j in unique + [i] <==> j in unique || j == i;
    assert forall a :: 0 <= a < |unique| ==> unique[a] in unique;
  }

  lemma KnownId(ops: seq<Operation>, i: nat, unique: seq<nat>, first: map<Text, Content>)
    requires i < |ops| && FirstsUpTo(ops, i, unique) && Remembers(ops, i, first) && ops[i].id in first
    ensures first[ops[i].id] == Fingerprint(ops[i]) ==> FirstsUpTo(ops, i + 1, unique) && Remembers(ops, i + 1, first)
    ensures first[ops[i].id] != Fingerprint(ops[i]) ==> !P.BatchAgrees(ops)
  {
    hide Utf8;
    var j: nat :| j < i && ops[j].id == ops[i].id;
  }

  lemma AllAgree(ops: seq<Operation>, first: map<Text, Content>)
    requires Remembers(ops, |ops|, first)
    ensures P.BatchAgrees(ops)
  {
    hide Utf8;
    forall i, j | 0 <= i < j < |ops| && ops[i].id == ops[j].id ensures Fingerprint(ops[i]) == Fingerprint(ops[j]) {
      assert first[ops[i].id] == Fingerprint(ops[i]) && first[ops[j].id] == Fingerprint(ops[j]);
    }
  }

  lemma AgreementIsEquality(ops: seq<Operation>)
    ensures P.BatchAgrees(ops) <==> forall i, j :: 0 <= i < j < |ops| && ops[i].id == ops[j].id ==>
              && ops[i].owner == ops[j].owner && ops[i].sku == ops[j].sku
              && ops[i].delta == ops[j].delta && ops[i].version == ops[j].version
  {
    hide Utf8;
  }

  lemma FirstsAreFirst(ops: seq<Operation>, unique: seq<nat>)
    requires FirstsUpTo(ops, |ops|, unique)
    ensures forall a, b :: 0 <= a < b < |unique| ==> unique[a] < unique[b]
    ensures forall i: nat :: i in unique <==> i < |ops| && forall j :: 0 <= j < i ==> ops[j].id != ops[i].id
  {
    hide Utf8;
  }

  /** The check before anything is reserved: the indices of first occurrences, or a
      conflict if the request contradicts itself. */
  method FirstOccurrences(ops: seq<Operation>) returns (r: Result<seq<nat>>)
    ensures r.Ok? <==> P.BatchAgrees(ops)
    ensures r.Ok? <==> forall i, j :: 0 <= i < j < |ops| && ops[i].id == ops[j].id ==>
              && ops[i].owner == ops[j].owner && ops[i].sku == ops[j].sku
              && ops[i].delta == ops[j].delta && ops[i].version == ops[j].version
    ensures r.Ok? ==> FirstsUpTo(ops, |ops|, r.value)
    ensures r.Ok? ==>
              && (forall a, b :: 0 <= a < b < |r.value| ==> r.value[a] < r.value[b])
              && forall i: nat :: i in r.value <==> i < |ops| && forall j :: 0 <= j < i ==> ops[j].id != ops[i].id
  {
    AgreementIsEquality(ops);
    var first: map<Text, Content> := map[];
    var unique: seq<nat> := [];
    assert FirstsUpTo(ops, 0, unique) && Remembers(ops, 0, first);
    hide Utf8, P.BatchAgrees, FirstsUpTo, Remembers;
    for i := 0 to |ops|
      invariant FirstsUpTo(ops, i, unique) && Remembers(ops, i, first)
    {
      var id, content := ops[i].id, Fingerprint(ops[i]);
      if id in first {
        KnownId(ops, i, unique, first);
        if first[id] != content { return Err; }
      } else {
        NewId(ops, i, unique, first);
        first := first[id := content];
        unique := unique + [i];
      }
    }
    AllAgree(ops, first);
    FirstsAreFirst(ops, unique);
    r := Ok(unique);
  }

  // ----- The map behind the shard locks -----

  function OnDisk(seen: map<P.Key, Content>, key: P.Key): Option<Content> {
    if key in seen then Some(seen[key]) else None
  }

  /** Entry `e` goes to the disk queue: its key was reserved with that content. */
  predicate Queued(was: P.Memory, keys: seq<P.Key>, shard: nat, shardOf: P.Key -> nat, committed: bool, e: (P.Key, Content)) {
    committed && e.0 in keys && shardOf(e.0) == shard && e.0 in was && was[e.0].Pending? && was[e.0].content == e.1
  }

  function ReleasedOf(m: P.Memory, keys: seq<P.Key>, shard: nat, shardOf: P.Key -> nat, token: P.Token): P.Memory {
    map k | k in m && !(k in keys && shardOf(k) == shard && m[k].Pending? && m[k].token == token) :: m[k]
  }

  function FinishedOf(m: P.Memory, keys: seq<P.Key>, shard: nat, shardOf: P.Key -> nat, committed: bool): P.Memory {
    if committed then
      map k | k in m :: if k in keys && shardOf(k) == shard && m[k].Pending? then P.Committed(m[k].content) else m[k]
    else
      map k | k in m && !(k in keys && shardOf(k) == shard) :: m[k]
  }

  /** With the keys a request has marked, the two loops are the protocol's steps. */
  lemma LoopsAreProtocolSteps(place: P.Placement, m: P.Memory, q: P.Request, keys: seq<P.Key>, token: P.Token, shard: nat, committed: bool)
    requires forall k :: k in keys <==> P.MarkedKey(q, k)
    ensures ReleasedOf(m, keys, shard, place.shard, token) == P.Released(place, m, q, token, shard)
    ensures FinishedOf(m, keys, shard, place.shard, committed) == P.Finished(place, m, q, shard, committed)
    ensures forall e :: Queued(m, keys, shard, place.shard, true, e)
              <==> e.0 in P.NewlyCommitted(place, m, q, shard) && P.NewlyCommitted(place, m, q, shard)[e.0] == e.1
  {
    hide P.MarkedKey, Utf8;
  }

  function MarkedKeys(ops: seq<Operation>, marks: seq<bool>): seq<P.Key>
    requires |marks| == |ops|
  {
    if ops == [] then []
    else
      var m := |ops| - 1;
      MarkedKeys(ops[..m], marks[..m]) + if marks[m] then [ops[m].id] else []
  }

  lemma {:induction false} MarkedKeysMembers(ops: seq<Operation>, marks: seq<bool>, k: P.Key)
    requires |marks| == |ops|
    ensures k in MarkedKeys(ops, marks) <==> exists i: nat :: i < |ops| && marks[i] && ops[i].id == k
  {
    hide Utf8;
    if ops != [] {
      var m := |ops| - 1;
      MarkedKeysMembers(ops[..m], marks[..m], k);
      if i: nat :| i < |ops| && marks[i] && ops[i].id == k {
        assert i < m ==> marks[..m][i] && ops[..m][i].id == k;
      }
      if i: nat :| i < m && marks[..m][i] && ops[..m][i].id == k {
        assert marks[i] && ops[i].id == k;
      }
    }
  }

  function Forgotten(m: P.Memory, persisted: P.Pairs): P.Memory {
    map k | k in m && !(exists e :: e in persisted && e.0 == k && m[k] == P.Committed(e.1)) :: m[k]
  }

  /** Entry by entry, with other lock sections in between or not: what the worker forgets
      is the protocol's step repeated. */
  lemma ForgettingOneByOne(m: P.Memory, e: (P.Key, Content), rest: P.Pairs)
    ensures Forgotten(m, [e] + rest)
            == Forgotten(if e.0 in m && m[e.0] == P.Committed(e.1) then m - {e.0} else m, rest)
  {
    hide Utf8;
    assert forall x :: x in [e] + rest <==> x == e || x in rest;
  }

  function RolledBack(m: P.Memory, keys: seq<P.Key>, token: P.Token): P.Memory {
    map k | k in m && !(k in keys && m[k].Pending? && m[k].token == token) :: m[k]
  }

  // ----- A whole attempt -----

  /** Memory is what it was plus one reservation per marked operation: a first occurrence
      whose id was neither in memory nor on disk. */
  ghost predicate Owned(was: P.Memory, memory: P.Memory, disk: map<P.Key, Content>, ops: seq<Operation>, marks: seq<bool>, token: P.Token) {
    && |marks| == |ops|
    && (forall k :: k in was ==> k in memory && memory[k] == was[k])
    && (forall i: nat :: i < |ops| && marks[i] ==>
          && P.IsFirst(ops, i) && ops[i].id !in was && ops[i].id !in disk
          && ops[i].id in memory && memory[ops[i].id] == P.Pending(Fingerprint(ops[i]), token))
    && (forall k :: k in memory && k !in was ==> exists i: nat :: i < |ops| && marks[i] && ops[i].id == k)
  }

  predicate Below(ops: seq<Operation>, marks: seq<bool>, shardOf: P.Key -> nat, shard: nat) {
    |marks| == |ops| && forall i: nat :: i < |ops| && marks[i] ==> shardOf(ops[i].id) < shard
  }

  /** Every first occurrence in the shards done is marked or was committed with exactly its
      content. */
  predicate Judged(was: P.Memory, disk: map<P.Key, Content>, ops: seq<Operation>, marks: seq<bool>, shardOf: P.Key -> nat, shard: nat) {
    && |marks| == |ops|
    && forall i: nat :: i < |ops| && P.IsFirst(ops, i) && shardOf(ops[i].id) < shard ==>
         || marks[i]
         || (ops[i].id in was && was[ops[i].id] == P.Committed(Fingerprint(ops[i])))
         || (ops[i].id !in was && OnDisk(disk, ops[i].id) == Some(Fingerprint(ops[i])))
  }

  predicate WaitsFor(was: P.Memory, ops: seq<Operation>, token: P.Token) {
    exists i: nat :: i < |ops| && ops[i].id in was && was[ops[i].id] == P.Pending(Fingerprint(ops[i]), token)
  }

  /** Some id of the request is known with another content. */
  predicate Conflicts(was: P.Memory, disk: map<P.Key, Content>, ops: seq<Operation>) {
    exists i: nat :: i < |ops| && if ops[i].id in was then was[ops[i].id].content != Fingerprint(ops[i])
                                  else OnDisk(disk, ops[i].id).Some? && disk[ops[i].id] != Fingerprint(ops[i])
  }

  lemma NothingOwned(was: P.Memory, disk: map<P.Key, Content>, ops: seq<Operation>, shardOf: P.Key -> nat, token: P.Token)
    ensures var none := P.Unmarked(|ops|);
            Owned(was, was, disk, ops, none, token) && Below(ops, none, shardOf, 0) && Judged(was, disk, ops, none, shardOf, 0)
  {
    hide Utf8;
  }

  lemma GroupIsFresh(ops: seq<Operation>, marks: seq<bool>, shardOf: P.Key -> nat, shard: nat)
    requires Below(ops, marks, shardOf, shard)
    ensures P.Fresh(ops, P.Group(shardOf, ops, shard, |ops|), marks)
  {
    hide Utf8;
    var group := P.Group(shardOf, ops, shard, |ops|);
    forall a | 0 <= a < |group| ensures P.IsFirst(ops, group[a]) && shardOf(ops[group[a]].id) == shard {
      assert group[a] in group;
    }
  }

  /** One shard of the attempt. */
  lemma AttemptStep(was: P.Memory, memory: P.Memory, disk: map<P.Key, Content>, ops: seq<Operation>, marks: seq<bool>,
                    token: P.Token, shardOf: P.Key -> nat, shard: nat)
    requires Owned(was, memory, disk, ops, marks, token)
    requires Below(ops, marks, shardOf, shard) && Judged(was, disk, ops, marks, shardOf, shard)
    ensures var d := P.Decide(memory, disk, ops, P.Group(shardOf, ops, shard, |ops|), token, marks);
            && |d.marks| == |ops|
            && Owned(was, d.memory, disk, ops, d.marks, token)
            && (d.verdict == P.Continue ==> Below(ops, d.marks, shardOf, shard + 1) && Judged(was, disk, ops, d.marks, shardOf, shard + 1))
            && (d.verdict.MustWait? ==> WaitsFor(was, ops, d.verdict.token))
            && (d.verdict == P.Contradicted ==> Conflicts(was, disk, ops))
  {
    hide P.Decide, P.IsFirst, P.Fresh, Utf8, Owned, Judged, WaitsFor, Conflicts;
    GroupIsFresh(ops, marks, shardOf, shard);
    StepOwns(was, memory, disk, ops, marks, token, shardOf, shard);
    StepJudges(was, memory, disk, ops, marks, token, shardOf, shard);
  }

  lemma StepOwns(was: P.Memory, memory: P.Memory, disk: map<P.Key, Content>, ops: seq<Operation>, marks: seq<bool>,
                 token: P.Token, shardOf: P.Key -> nat, shard: nat)
    requires Owned(was, memory, disk, ops, marks, token) && Below(ops, marks, shardOf, shard)
    requires P.Fresh(ops, P.Group(shardOf, ops, shard, |ops|), marks)
    ensures var d := P.Decide(memory, disk, ops, P.Group(shardOf, ops, shard, |ops|), token, marks);
            Owned(was, d.memory, disk, ops, d.marks, token) && Below(ops, d.marks, shardOf, shard + 1)
  {
    hide P.Decide, P.IsFirst, P.Fresh, Utf8;
    var group := P.Group(shardOf, ops, shard, |ops|);
    P.DecideFrame(memory, disk, ops, group, token, marks);
    P.DecideReserves(memory, disk, ops, group, token, marks);
    var d := P.Decide(memory, disk, ops, group, token, marks);
    forall i: nat | i < |ops| && d.marks[i]
      ensures P.IsFirst(ops, i) && ops[i].id !in was && ops[i].id !in disk && shardOf(ops[i].id) < shard + 1
      ensures ops[i].id in d.memory && d.memory[ops[i].id] == P.Pending(Fingerprint(ops[i]), token)
    {
      if i !in group { assert marks[i]; }
    }
    forall k | k in d.memory && k !in was ensures exists i: nat :: i < |ops| && d.marks[i] && ops[i].id == k {
      if k in memory {
        var i: nat :| i < |ops| && marks[i] && ops[i].id == k;
        assert i !in group && d.marks[i];
      }
    }
  }

  lemma StepJudges(was: P.Memory, memory: P.Memory, disk: map<P.Key, Content>, ops: seq<Operation>, marks: seq<bool>,
                   token: P.Token, shardOf: P.Key -> nat, shard: nat)
    requires Owned(was, memory, disk, ops, marks, token)
    requires Below(ops, marks, shardOf, shard) && Judged(was, disk, ops, marks, shardOf, shard)
    requires P.Fresh(ops, P.Group(shardOf, ops, shard, |ops|), marks)
    ensures var d := P.Decide(memory, disk, ops, P.Group(shardOf, ops, shard, |ops|), token, marks);
            && (d.verdict == P.Continue ==> Judged(was, disk, ops, d.marks, shardOf, shard + 1))
            && (d.verdict.MustWait? ==> WaitsFor(was, ops, d.verdict.token))
            && (d.verdict == P.Contradicted ==> Conflicts(was, disk, ops))
  {
    hide P.Decide, P.IsFirst, P.Fresh, Utf8;
    var group := P.Group(shardOf, ops, shard, |ops|);
    P.DecideFrame(memory, disk, ops, group, token, marks);
    P.DecideVerdict(memory, disk, ops, group, token, marks);
    P.DecideConflicts(memory, disk, ops, group, token, marks);
    forall i: nat | i in group ensures !(ops[i].id in memory && ops[i].id !in was) {
      NotOwnedYet(was, memory, disk, ops, marks, token, shardOf, shard, i);
    }
  }

  /** A key of the shard at hand is not among the reservations made so far. */
  lemma NotOwnedYet(was: P.Memory, memory: P.Memory, disk: map<P.Key, Content>, ops: seq<Operation>, marks: seq<bool>,
                    token: P.Token, shardOf: P.Key -> nat, shard: nat, i: nat)
    requires Owned(was, memory, disk, ops, marks, token) && Below(ops, marks, shardOf, shard)
    requires i < |ops| && shardOf(ops[i].id) == shard
    ensures ops[i].id in memory ==> ops[i].id in was
  {
    hide P.IsFirst, Utf8;
  }

  lemma NothingLeft(was: P.Memory, memory: P.Memory, disk: map<P.Key, Content>, ops: seq<Operation>, marks: seq<bool>, token: P.Token)
    requires Owned(was, memory, disk, ops, marks, token)
    requires forall k :: k in was && was[k].Pending? ==> was[k].token != token
    ensures RolledBack(memory, MarkedKeys(ops, marks), token) == was
  {
    hide P.IsFirst, Utf8;
    forall k { MarkedKeysMembers(ops, marks, k); }
  }

  /** Operation `i` of a request that got through: a marked one is the first of its id, which
      nobody knew and this attempt now holds; an unmarked first one is committed with exactly
      its owner, SKU, delta and version. */
  ghost predicate FirstOrKnown(was: P.Memory, memory: P.Memory, disk: map<P.Key, Content>, ops: seq<Operation>, marks: seq<bool>,
                               token: P.Token, i: nat)
    requires i < |ops| == |marks|
  {
    var id, content := ops[i].id, Content(ops[i].owner, ops[i].sku, ops[i].delta, ops[i].version);
    if marks[i] then
      && (forall j :: 0 <= j < i ==> ops[j].id != id)
      && id !in was && id !in disk && id in memory && memory[id] == P.Pending(content, token)
    else
      || (exists j :: 0 <= j < i && ops[j].id == id)
      || (if id in was then was[id] == P.Committed(content) else id in disk && disk[id] == content)
  }

  lemma AttemptMeans(was: P.Memory, memory: P.Memory, disk: map<P.Key, Content>, ops: seq<Operation>, marks: seq<bool>,
                     shardOf: P.Key -> nat, token: P.Token)
    requires forall k :: shardOf(k) < P.DEDUP_SHARDS
    requires Owned(was, memory, disk, ops, marks, token) && Judged(was, disk, ops, marks, shardOf, P.DEDUP_SHARDS)
    ensures forall i: nat :: i < |ops| ==> FirstOrKnown(was, memory, disk, ops, marks, token, i)
    ensures forall k :: (forall i: nat :: i < |ops| && marks[i] ==> ops[i].id != k) ==>
              (k in memory <==> k in was) && (k in memory ==> memory[k] == was[k])
  {
    hide Utf8;
    forall i: nat | i < |ops| ensures FirstOrKnown(was, memory, disk, ops, marks, token, i) {
      assert P.IsFirst(ops, i) || exists j :: 0 <= j < i && ops[j].id == ops[i].id;
    }
  }

  class DedupMap {
    var memory: P.Memory

    constructor ()
      ensures memory == map[]
    {
      memory := map[];
    }

    /** One shard of preflight, its lock held: `diskValues` is what get_many answered for
        the keys of `group`. Stops at the first conflict or foreign reservation. */
    method ReserveShard(ops: seq<Operation>, group: seq<nat>, diskValues: seq<Option<Content>>, token: P.Token, given: seq<bool>,
                        ghost seen: map<P.Key, Content>)
      returns (marks: seq<bool>, verdict: P.Verdict)
      requires |given| == |ops| && P.Indices(group, |ops|) && |diskValues| == |group|
      requires forall a :: 0 <= a < |group| ==> diskValues[a] == OnDisk(seen, ops[group[a]].id)
      modifies this
      ensures P.Decision(memory, marks, verdict) == P.Decide(old(memory), seen, ops, group, token, given)
    {
      marks, verdict := given, P.Continue;
      assert group[0..] == group;
      for a := 0 to |group|
        invariant |marks| == |ops| && verdict == P.Continue
        invariant P.Decide(memory, seen, ops, group[a..], token, marks) == P.Decide(old(memory), seen, ops, group, token, given)
      {
        var index := group[a];
        var key, content := ops[index].id, Fingerprint(ops[index]);
        assert group[a..][0] == index && group[a..][1..] == group[a + 1..];
        if key in memory {
          match memory[key] {
            case Committed(existing) =>
              if existing != content { return marks, P.Contradicted; }
            case Pending(existing, holder) =>
              if existing != content { return marks, P.Contradicted; }
              return marks, P.MustWait(holder);
          }
        } else {
          match diskValues[a] {
            case Some(existing) =>
              if existing != content { return marks, P.Contradicted; }
            case None =>
              memory := memory[key := P.Pending(content, token)];
              marks := marks[index := true];
          }
        }
      }
      assert group[|group|..] == [];
    }

    /** One shard of rollback_reservation: of the keys that fall in it, those still held by
        this reservation go. */
    method ReleaseShard(keys: seq<P.Key>, shard: nat, shardOf: P.Key -> nat, token: P.Token)
      modifies this
      ensures memory == ReleasedOf(old(memory), keys, shard, shardOf, token)
    {
      ghost var was := memory;
      for a := 0 to |keys|
        invariant memory == ReleasedOf(was, keys[..a], shard, shardOf, token)
      {
        assert keys[..a + 1] == keys[..a] + [keys[a]];
        var key := keys[a];
        if shardOf(key) == shard && key in memory && memory[key].Pending? && memory[key].token == token {
          memory := memory - {key};
        }
      }
      assert keys[..|keys|] == keys;
    }

    /** One shard of finish_batch: reservations become commitments and queue for the disk,
        or go. */
    method FinishShard(keys: seq<P.Key>, shard: nat, shardOf: P.Key -> nat, committed: bool) returns (entries: P.Pairs)
      modifies this
      ensures memory == FinishedOf(old(memory), keys, shard, shardOf, committed)
      ensures forall e :: e in entries <==> Queued(old(memory), keys, shard, shardOf, committed, e)
    {
      ghost var was := memory;
      entries := [];
      for a := 0 to |keys|
        invariant memory == FinishedOf(was, keys[..a], shard, shardOf, committed)
        invariant forall e :: e in entries <==> Queued(was, keys[..a], shard, shardOf, committed, e)
      {
        assert keys[..a + 1] == keys[..a] + [keys[a]];
        var key := keys[a];
        if shardOf(key) == shard && key in memory {
          if committed {
            if memory[key].Pending? {
              entries := entries + [(key, memory[key].content)];
              memory := memory[key := P.Committed(memory[key].content)];
            }
          } else {
            memory := memory - {key};
          }
        }
      }
      assert keys[..|keys|] == keys;
    }

    /** The worker after its disk write: entries that are still committed with the content
        it wrote leave memory. */
    method ForgetPersisted(persisted: P.Pairs)
      modifies this
      ensures memory == Forgotten(old(memory), persisted)
    {
      ghost var was := memory;
      for a := 0 to |persisted|
        invariant memory == Forgotten(was, persisted[..a])
      {
        assert persisted[..a + 1] == persisted[..a] + [persisted[a]];
        var (key, content) := persisted[a];
        if key in memory && memory[key] == P.Committed(content) {
          memory := memory - {key};
        }
      }
      assert persisted[..|persisted|] == persisted;
    }

    /** rollback_reservation over all shards. */
    method Rollback(ops: seq<Operation>, marks: seq<bool>, shardOf: P.Key -> nat, token: P.Token)
      requires |marks| == |ops| && forall k :: shardOf(k) < P.DEDUP_SHARDS
      modifies this
      ensures memory == RolledBack(old(memory), MarkedKeys(ops, marks), token)
    {
      hide Utf8;
      ghost var was := memory;
      var keys := MarkedKeys(ops, marks);
      for shard := 0 to P.DEDUP_SHARDS
        invariant memory == map k | k in was && !(k in keys && shardOf(k) < shard && was[k].Pending? && was[k].token == token) :: was[k]
      {
        ReleaseShard(keys, shard, shardOf, token);
      }
    }

    /** A whole attempt of preflight that nobody interrupts: shard after shard, then on
        failure the rollback. Either all new ids of the request are reserved and every other
        one matches what is committed, or nothing is left behind. */
    method Attempt(ops: seq<Operation>, disk: map<P.Key, Content>, shardOf: P.Key -> nat, token: P.Token)
      returns (marks: seq<bool>, verdict: P.Verdict)
      requires forall k :: shardOf(k) < P.DEDUP_SHARDS
      requires forall k :: k in memory && memory[k].Pending? ==> memory[k].token != token
      modifies this
      ensures |marks| == |ops|
      ensures verdict == P.Continue ==>
                Owned(old(memory), memory, disk, ops, marks, token) && Judged(old(memory), disk, ops, marks, shardOf, P.DEDUP_SHARDS)
      ensures verdict != P.Continue ==> memory == old(memory)
      ensures verdict == P.Continue ==> forall i: nat :: i < |ops| ==> FirstOrKnown(old(memory), memory, disk, ops, marks, token, i)
      ensures verdict == P.Continue ==> forall k :: (forall i: nat :: i < |ops| && marks[i] ==> ops[i].id != k) ==>
                (k in memory <==> k in old(memory)) && (k in memory ==> memory[k] == old(memory)[k])
      ensures verdict.MustWait? ==>
                exists i: nat :: (
                  && i < |ops| && ops[i].id in old(memory)
                  && old(memory)[ops[i].id] == P.Pending(Content(ops[i].owner, ops[i].sku, ops[i].delta, ops[i].version), verdict.token))
      ensures verdict == P.Contradicted ==>
                exists i: nat :: (
                  && i < |ops| && var content := Content(ops[i].owner, ops[i].sku, ops[i].delta, ops[i].version);
                     if ops[i].id in old(memory) then old(memory)[ops[i].id].content != content
                     else ops[i].id in disk && disk[ops[i].id] != content)
    {
      hide P.IsFirst, P.Decide, Owned, Judged, Below, Utf8;
      marks, verdict := P.Unmarked(|ops|), P.Continue;
      ghost var was := memory;
      NothingOwned(memory, disk, ops, shardOf, token);
      var shard := 0;
      while shard < P.DEDUP_SHARDS && verdict == P.Continue
        invariant shard <= P.DEDUP_SHARDS && |marks| == |ops|
        invariant Owned(was, memory, disk, ops, marks, token)
        invariant verdict == P.Continue ==> Below(ops, marks, shardOf, shard) && Judged(was, disk, ops, marks, shardOf, shard)
        invariant verdict.MustWait? ==> WaitsFor(was, ops, verdict.token)
        invariant verdict == P.Contradicted ==> Conflicts(was, disk, ops)
        decreases P.DEDUP_SHARDS - shard
      {
        var group := P.Group(shardOf, ops, shard, |ops|);
        var diskValues := seq(|group|, a requires 0 <= a < |group| => OnDisk(disk, ops[group[a]].id));
        AttemptStep(was, memory, disk, ops, marks, token, shardOf, shard);
        marks, verdict := ReserveShard(ops, group, diskValues, token, marks, disk);
        shard := shard + 1;
      }
      if verdict != P.Continue {
        ghost var reserved := memory;
        Rollback(ops, marks, shardOf, token);
        NothingLeft(was, reserved, disk, ops, marks, token);
      } else {
        AttemptMeans(was, memory, disk, ops, marks, shardOf, token);
      }
    }
  }
}
