/** The layered dedup index on disk behind its Bloom filter (src/dedup_disk.rs). */
module DiskIndex {
  import opened Model
  import opened Bits
  import B = Binary

  const LSM_SHARDS: nat := 64
  const DISK_SHARDS: nat := 16

  /** A SHA-256 digest: keys and fingerprints. */
  type Digest = b: Bytes | |b| == 32 witness seq(32, _ => 0)

  type Layer = map<Digest, Digest>

  function LsmShard(key: Digest): nat { BitAnd(key[0], LSM_SHARDS - 1) }

  function DiskShard(key: Digest): nat { BitAnd(key[0], DISK_SHARDS - 1) }

  /** The shard of the in-memory map (src/state.rs). */
  function MemoryShard(key: Digest): nat { B.FromLE(key[..2]) % 64 }

  /** The memory shard of a key is its LSM shard: whoever holds the lock of the one has the
      other to himself. */
  lemma MemoryShardIsLsmShard(key: Digest)
    ensures MemoryShard(key) == LsmShard(key) < 64
  {
    hide BitAnd;
    TwoBytes(key[..2]);
    ShardsAreInRange(key);
    HighByteIsIrrelevant(key[0], key[1]);
  }

  lemma TwoBytes(b: Bytes)
    requires |b| == 2
    ensures B.FromLE(b) == (b[0] as int) + 256 * (b[1] as int)
  {
    assert b[1..] == [b[1]] && [b[1]][1..] == [];
    assert B.FromLE([b[1]]) == b[1];
  }

  lemma HighByteIsIrrelevant(a: nat, b: nat)
    ensures (a + 256 * b) % 64 == a % 64
  {
    RemainderIs(a + 256 * b, 64, a / 64 + 4 * b, a % 64);
  }

  lemma ShardsAreInRange(key: Digest)
    ensures LsmShard(key) == key[0] % 64 && DiskShard(key) == key[0] % 16 && LSM_SHARDS == 64 && DISK_SHARDS == 16
  {
    assert Pow2(6) == 64 && Pow2(4) == 16;
    MaskIsRemainder(key[0], 6);
    MaskIsRemainder(key[0], 4);
  }

  // ----- The Bloom filter -----

  function BitPosition(key: Digest, i: nat, bits: nat): nat
    requires i < 4 && bits > 0
  {
    B.FromLE(key[8 * i..8 * i + 8]) % bits
  }

  /** bloom_positions. */
  function Positions(key: Digest, bits: nat): set<nat>
    requires bits > 0
  {
    set i: nat | i < 4 :: BitPosition(key, i, bits)
  }

  /** The four positions are the four 64-bit little-endian words of the digest, modulo the
      number of bits. */
  lemma PositionsAreWords(key: Digest, bits: nat, words: seq<nat>)
    requires bits > 0 && |words| == 4
    requires forall i :: 0 <= i < 4 ==> words[i] <= MAX_U64
    requires key == B.LE(8, words[0]) + B.LE(8, words[1]) + B.LE(8, words[2]) + B.LE(8, words[3])
    ensures Positions(key, bits) == {words[0] % bits, words[1] % bits, words[2] % bits, words[3] % bits}
  {
    hide B.LE, B.FromLE;
    B.Widths();
    forall i: nat | i < 4 ensures BitPosition(key, i, bits) == words[i] % bits {
      B.LERoundTrip(8, words[i]);
      assert key[8 * i..8 * i + 8] == B.LE(8, words[i]);
    }
    assert BitPosition(key, 0, bits) in Positions(key, bits) && BitPosition(key, 1, bits) in Positions(key, bits);
    assert BitPosition(key, 2, bits) in Positions(key, bits) && BitPosition(key, 3, bits) in Positions(key, bits);
  }

  predicate Bit(bloom: seq<bv8>, at: nat) {
    at / 8 < |bloom| && Test(bloom[at / 8], at % 8)
  }

  /** A bit in the program's own terms. */
  lemma BitIsShift(bloom: seq<bv8>, at: nat)
    ensures Bit(bloom, at) <==> at / 8 < |bloom| && bloom[at / 8] & (1 << (at % 8)) != 0
  {
    hide Test;
    if at / 8 < |bloom| { TestIsShift(bloom[at / 8], at % 8); }
  }

  /** bloom_maybe. */
  predicate Maybe(bloom: seq<bv8>, key: Digest)
    requires |bloom| > 0
  {
    forall i: nat | i < 4 :: Bit(bloom, BitPosition(key, i, 8 * |bloom|))
  }

  lemma PositionIsByteAndBit(a: nat, b: nat)
    ensures a == b <==> a / 8 == b / 8 && a % 8 == b % 8
  {
    assert a == 8 * (a / 8) + a % 8 && b == 8 * (b / 8) + b % 8;
  }

  lemma SettingOneBit(bloom: seq<bv8>, at: nat, b: nat)
    requires at / 8 < |bloom|
    ensures Bit(bloom[at / 8 := bloom[at / 8] | Mask(at % 8)], b) <==> b == at || Bit(bloom, b)
  {
    hide Test, Mask;
    PositionIsByteAndBit(b, at);
    var byte, i, byte', i' := at / 8, at % 8, b / 8, b % 8;
    var after := bloom[byte := bloom[byte] | Mask(i)];
    if byte' == byte {
      TestAfterSet(bloom[byte], i, i');
    } else if byte' < |bloom| {
      assert after[byte'] == bloom[byte'];
    }
  }

  /** bloom_add sets the four bits of the key and nothing else. */
  method BloomAdd(bloom: array<bv8>, key: Digest)
    requires bloom.Length > 0
    modifies bloom
    ensures forall b: nat :: Bit(bloom[..], b) <==> Bit(old(bloom[..]), b) || b in Positions(key, 8 * bloom.Length)
  {
    hide B.FromLE, Test;
    ghost var was := bloom[..];
    var bits := 8 * bloom.Length;
    for i := 0 to 4
      invariant forall b: nat :: Bit(bloom[..], b) <==>
                  Bit(was, b) || exists j: nat :: j < i && b == BitPosition(key, j, bits)
    {
      var at := BitPosition(key, i, bits);
      ghost var before := bloom[..];
      bloom[at / 8] := bloom[at / 8] | Mask(at % 8);
      assert bloom[..] == before[at / 8 := before[at / 8] | Mask(at % 8)];
      forall b: nat ensures Bit(bloom[..], b) <==> b == at || Bit(before, b) {
        SettingOneBit(before, at, b);
      }
    }
  }

  /** An added key answers yes, and no key stops answering yes. */
  lemma AddedAnswersYes(was: seq<bv8>, bloom: seq<bv8>, key: Digest, other: Digest)
    requires |was| == |bloom| > 0
    requires forall b: nat :: Bit(bloom, b) <==> Bit(was, b) || b in Positions(key, 8 * |bloom|)
    ensures Maybe(bloom, key)
    ensures Maybe(was, other) ==> Maybe(bloom, other)
  {
    hide B.FromLE, Test, Bit;
    forall i: nat | i < 4 ensures Bit(bloom, BitPosition(key, i, 8 * |bloom|)) {
      assert BitPosition(key, i, 8 * |bloom|) in Positions(key, 8 * |bloom|);
    }
  }

  /** The OR-merge of a rebuilt image into the live filter. */
  method OrMerge(target: array<bv8>, image: array<bv8>)
    requires target.Length == image.Length && target != image
    modifies target
    ensures forall b: nat :: Bit(target[..], b) <==> Bit(old(target[..]), b) || Bit(image[..], b)
  {
    hide Test;
    ghost var was := target[..];
    for i := 0 to target.Length
      invariant forall j :: 0 <= j < i ==> target[j] == was[j] | image[j]
      invariant forall j :: i <= j < target.Length ==> target[j] == was[j]
      invariant image[..] == old(image[..])
    {
      target[i] := target[i] | image[i];
    }
    forall b: nat | b / 8 < target.Length ensures Bit(target[..], b) <==> Bit(was, b) || Bit(image[..], b) {
      TestAfterOr(was[b / 8], image[b / 8], b % 8);
    }
  }

  /** After a merge every key of either filter answers yes. */
  lemma MergedAnswersYes(was: seq<bv8>, image: seq<bv8>, bloom: seq<bv8>, key: Digest)
    requires |was| == |bloom| == |image| > 0 && (Maybe(was, key) || Maybe(image, key))
    requires forall b: nat :: Bit(bloom, b) <==> Bit(was, b) || Bit(image, b)
    ensures Maybe(bloom, key)
  {
    hide B.FromLE, Test, Bit;
  }

  // ----- The layers as one map -----

  function Union(shards: seq<Layer>): Layer {
    if shards == [] then map[] else Union(shards[..|shards| - 1]) + shards[|shards| - 1]
  }

  datatype Layers = Layers(lsmShards: seq<Layer>, lsm: Layer, diskShards: seq<Layer>, disk: Layer)

  /** The plain map: later layers give way to earlier ones. */
  function Merged(l: Layers): Layer {
    l.disk + Union(l.diskShards) + l.lsm + Union(l.lsmShards)
  }

  function Find(m: Layer, key: Digest): Option<Digest> {
    if key in m then Some(m[key]) else None
  }

  /** Every key sits in the shard its first byte names, and the compatibility layers are
      read unless they were empty from the start. */
  ghost predicate Placed(l: Layers, fallback: bool) {
    && |l.lsmShards| == LSM_SHARDS && |l.diskShards| == DISK_SHARDS
    && (forall i, k :: 0 <= i < LSM_SHARDS && k in l.lsmShards[i] ==> LsmShard(k) == i)
    && (forall i, k :: 0 <= i < DISK_SHARDS && k in l.diskShards[i] ==> DiskShard(k) == i)
    && (!fallback ==> l.disk == map[] && forall i :: 0 <= i < DISK_SHARDS ==> l.diskShards[i] == map[])
  }

  lemma {:induction false} FindInUnion(shards: seq<Layer>, key: Digest, at: nat)
    requires at < |shards| && forall i :: 0 <= i < |shards| && key in shards[i] ==> i == at
    ensures Find(Union(shards), key) == Find(shards[at], key)
  {
    var m := |shards| - 1;
    if at < m {
      FindInUnion(shards[..m], key, at);
    } else {
      NotInUnion(shards[..m], key);
    }
  }

  lemma {:induction false} NotInUnion(shards: seq<Layer>, key: Digest)
    requires forall i :: 0 <= i < |shards| ==> key !in shards[i]
    ensures key !in Union(shards)
  {
    if shards != [] { NotInUnion(shards[..|shards| - 1], key); }
  }

  function Else(a: Option<Digest>, b: Option<Digest>): Option<Digest> { if a.Some? then a else b }

  /** Reading layer by layer, one shard each, is reading the plain map. */
  lemma LayersAreOneMap(l: Layers, fallback: bool, key: Digest)
    requires Placed(l, fallback)
    ensures LsmShard(key) < LSM_SHARDS && DiskShard(key) < DISK_SHARDS
    ensures Find(Merged(l), key)
            == Else(Find(l.lsmShards[LsmShard(key)], key), Else(Find(l.lsm, key),
                 Else(Find(l.diskShards[DiskShard(key)], key), Find(l.disk, key))))
    ensures !fallback ==> Find(l.diskShards[DiskShard(key)], key) == None && Find(l.disk, key) == None
  {
    hide LsmShard, DiskShard, Union;
    ShardsAreInRange(key);
    FindInUnion(l.lsmShards, key, LsmShard(key));
    FindInUnion(l.diskShards, key, DiskShard(key));
  }

  type Entries = seq<(Digest, Digest)>

  function Inserted(m: Layer, entries: Entries): Layer {
    if entries == [] then m
    else Inserted(m, entries[..|entries| - 1])[entries[|entries| - 1].0 := entries[|entries| - 1].1]
  }

  function PutInShard(shards: seq<Layer>, key: Digest, value: Digest): (r: seq<Layer>)
    requires |shards| == LSM_SHARDS
    ensures |r| == LSM_SHARDS
  {
    ShardsAreInRange(key);
    var shard: Layer := shards[LsmShard(key)][key := value];
    shards[LsmShard(key) := shard]
  }

  /** The write batch of insert_many: each entry into its LSM shard. */
  function InsertedShards(shards: seq<Layer>, entries: Entries): (r: seq<Layer>)
    requires |shards| == LSM_SHARDS
    ensures |r| == LSM_SHARDS
  {
    if entries == [] then shards
    else
      var m := |entries| - 1;
      var before := InsertedShards(shards, entries[..m]);
      PutInShard(before, entries[m].0, entries[m].1)
  }

  lemma PlacedAfterPut(l: Layers, fallback: bool, key: Digest, value: Digest)
    requires Placed(l, fallback)
    ensures var l' := l.(lsmShards := PutInShard(l.lsmShards, key, value));
            Placed(l', fallback) && Merged(l') == Merged(l)[key := value]
  {
    hide LsmShard, DiskShard, Union, Merged;
    var at := LsmShard(key);
    var l' := l.(lsmShards := PutInShard(l.lsmShards, key, value));
    assert Placed(l', fallback);
    forall k ensures Find(Merged(l'), k) == Find(Merged(l)[key := value], k) {
      LayersAreOneMap(l, fallback, k);
      LayersAreOneMap(l', fallback, k);
      assert LsmShard(k) != at ==> l'.lsmShards[LsmShard(k)] == l.lsmShards[LsmShard(k)];
    }
    SameFinds(Merged(l'), Merged(l)[key := value]);
  }

  lemma SameFinds(a: Layer, b: Layer)
    requires forall k :: Find(a, k) == Find(b, k)
    ensures a == b
  {
    forall k ensures k in a <==> k in b { assert Find(a, k) == Find(b, k); }
    forall k | k in a ensures a[k] == b[k] { assert Find(a, k) == Find(b, k); }
  }

  /** Inserting through the shards is inserting into the plain map. */
  lemma {:induction false} ShardedInsertIsInsert(l: Layers, fallback: bool, entries: Entries)
    requires Placed(l, fallback)
    ensures var l' := l.(lsmShards := InsertedShards(l.lsmShards, entries));
            Placed(l', fallback) && Merged(l') == Inserted(Merged(l), entries)
  {
    hide LsmShard, DiskShard, Union, Merged, Placed;
    assert |l.lsmShards| == LSM_SHARDS by { PlacedShards(l, fallback); }
    if entries == [] {
      assert l.(lsmShards := l.lsmShards) == l;
    } else {
      var m := |entries| - 1;
      ShardedInsertIsInsert(l, fallback, entries[..m]);
      var before := l.(lsmShards := InsertedShards(l.lsmShards, entries[..m]));
      PlacedAfterPut(before, fallback, entries[m].0, entries[m].1);
    }
  }

  lemma PlacedShards(l: Layers, fallback: bool)
    requires Placed(l, fallback)
    ensures |l.lsmShards| == LSM_SHARDS && |l.diskShards| == DISK_SHARDS
  {
  }

  /** The last entry of a key counts. */
  lemma {:induction false} InsertedHolds(m: Layer, entries: Entries, i: nat)
    requires i < |entries| && forall j :: i < j < |entries| ==> entries[j].0 != entries[i].0
    ensures entries[i].0 in Inserted(m, entries) && Inserted(m, entries)[entries[i].0] == entries[i].1
  {
    var n := |entries| - 1;
    if i < n {
      assert forall j :: i < j < n ==> entries[..n][j] == entries[j];
      InsertedHolds(m, entries[..n], i);
      assert entries[n].0 != entries[i].0;
    }
  }

  /** A key without an entry keeps what it had. */
  lemma {:induction false} InsertedSpares(m: Layer, entries: Entries, key: Digest)
    requires forall i :: 0 <= i < |entries| ==> entries[i].0 != key
    ensures Find(Inserted(m, entries), key) == Find(m, key)
  {
    if entries != [] { InsertedSpares(m, entries[..|entries| - 1], key); }
  }

  lemma {:induction false} InsertedKeys(m: Layer, entries: Entries, key: Digest)
    ensures key in Inserted(m, entries) <==> key in m || exists i :: 0 <= i < |entries| && entries[i].0 == key
  {
    if entries != [] {
      var n := |entries| - 1;
      InsertedKeys(m, entries[..n], key);
      if i :| 0 <= i < |entries| && entries[i].0 == key {
        assert i < n ==> entries[..n][i].0 == key;
      }
      if i :| 0 <= i < n && entries[..n][i].0 == key {
        assert entries[i].0 == key;
      }
    }
  }

  class DiskDedup {
    var layers: Layers
    const legacyFallback: bool
    const bloom: array<bv8>
    var ready: bool

    /** open: the layers found on disk, an empty filter that is trusted at once only on a
        fresh installation. */
    constructor (found: Layers, bytes: nat, firstStart: bool)
      requires |found.lsmShards| == LSM_SHARDS && |found.diskShards| == DISK_SHARDS && bytes > 0
      requires forall i, k :: 0 <= i < LSM_SHARDS && k in found.lsmShards[i] ==> LsmShard(k) == i
      requires forall i, k :: 0 <= i < DISK_SHARDS && k in found.diskShards[i] ==> DiskShard(k) == i
      requires firstStart ==> Merged(found) == map[]
      ensures Valid() && layers == found && ready == firstStart && fresh(bloom) && bloom.Length == bytes
      ensures forall b: nat :: !Bit(bloom[..], b)
    {
      layers := found;
      legacyFallback := found.disk != map[] || exists i :: 0 <= i < DISK_SHARDS && found.diskShards[i] != map[];
      bloom := new bv8[bytes](i => 0);
      ready := firstStart;
    }

    ghost predicate Valid()
      reads this, bloom
    {
      && Placed(layers, legacyFallback)
      && bloom.Length > 0
      && (ready ==> Covers(bloom[..], Merged(layers).Keys))
    }

    /** The plain map the index stands for. */
    ghost function Stored(): Layer
      reads this
    {
      Merged(layers)
    }

    /** get. */
    method Get(key: Digest) returns (r: Option<Digest>)
      requires Valid()
      ensures r == Find(Stored(), key)
    {
      hide Positions, Merged, LsmShard, DiskShard, Placed, Maybe;
      LayersAreOneMap(layers, legacyFallback, key);
      assert |layers.lsmShards| == LSM_SHARDS && |layers.diskShards| == DISK_SHARDS by { PlacedShards(layers, legacyFallback); }
      if ready && !Maybe(bloom[..], key) { return None; }
      var shard := layers.lsmShards[LsmShard(key)];
      if key in shard { return Some(shard[key]); }
      if key in layers.lsm { return Some(layers.lsm[key]); }
      if !legacyFallback { return None; }
      shard := layers.diskShards[DiskShard(key)];
      if key in shard { return Some(shard[key]); }
      if key in layers.disk { return Some(layers.disk[key]); }
      r := None;
    }

    /** get_many: layer by layer over all keys. */
    method GetMany(keys: seq<Digest>) returns (r: seq<Option<Digest>>)
      requires Valid()
      ensures |r| == |keys|
      ensures forall i :: 0 <= i < |keys| ==> r[i] == Find(Stored(), keys[i])
    {
      hide Positions, Merged, LsmShard, DiskShard, Placed, Maybe, Else;
      assert |layers.lsmShards| == LSM_SHARDS && |layers.diskShards| == DISK_SHARDS by { PlacedShards(layers, legacyFallback); }
      var filter, trusted := bloom[..], ready;
      var candidates := seq(|keys|, i requires 0 <= i < |keys| => !trusted || Maybe(filter, keys[i]));
      forall k { ShardsAreInRange(k); }
      r := seq(|keys|, _ => None);
      assert forall i :: 0 <= i < |keys| && !candidates[i] ==> keys[i] !in Stored();
      if forall i :: 0 <= i < |keys| ==> !candidates[i] { return; }
      r := ReadShards(layers.lsmShards, LsmShard, keys, candidates, r);
      r := ReadLayer(layers.lsm, keys, candidates, r);
      if legacyFallback {
        r := ReadShards(layers.diskShards, DiskShard, keys, candidates, r);
        r := ReadLayer(layers.disk, keys, candidates, r);
      }
      forall i | 0 <= i < |keys| ensures r[i] == Find(Stored(), keys[i]) {
        LayersAreOneMap(layers, legacyFallback, keys[i]);
        ElseFacts();
      }
    }

    /** insert_many: one write batch, then the filter. A refused batch changes nothing. */
    method InsertMany(entries: Entries, commits: bool) returns (ok: bool)
      requires Valid()
      modifies this`layers, bloom
      ensures Valid() && ok == (commits || entries == [])
      ensures Stored() == if ok then Inserted(old(Stored()), entries) else old(Stored())
      ensures forall k :: Maybe(old(bloom[..]), k) ==> Maybe(bloom[..], k)
      ensures ok ==> forall i :: 0 <= i < |entries| ==> Maybe(bloom[..], entries[i].0)
      ensures Adds(old(bloom[..]), bloom[..], if ok then KeysOf(entries) else {})
    {
      hide Positions, Merged, Bit, Adds, LsmShard, DiskShard, Placed, Maybe;
      assert |layers.lsmShards| == LSM_SHARDS by { PlacedShards(layers, legacyFallback); }
      AddsNothing(bloom[..]);
      if entries == [] {
        assert KeysOf(entries) == {};
        return true;
      }
      var shards := layers.lsmShards;
      for i := 0 to |entries|
        invariant |shards| == LSM_SHARDS && shards == InsertedShards(layers.lsmShards, entries[..i])
      {
        assert entries[..i + 1][..i] == entries[..i];
        shards := PutInShard(shards, entries[i].0, entries[i].1);
      }
      assert entries[..|entries|] == entries;
      if !commits { return false; }
      ShardedInsertIsInsert(layers, legacyFallback, entries);
      ghost var was := Stored();
      layers := layers.(lsmShards := shards);
      ghost var filter := bloom[..];
      AddEntries(bloom, entries);
      AddsAnswerYes(filter, bloom[..], KeysOf(entries));
      if ready {
        forall k | k in Stored() ensures Maybe(bloom[..], k) { InsertedKeys(was, entries, k); }
      }
      ok := true;
    }

    /** The image that the background thread builds from all layers. */
    method RebuildImage() returns (image: array<bv8>)
      requires Valid()
      ensures fresh(image) && image.Length == bloom.Length && Covers(image[..], Stored().Keys)
      ensures forall b: nat :: Bit(image[..], b) <==> exists k :: k in Stored() && b in Positions(k, 8 * image.Length)
    {
      hide Positions, Merged, LsmShard, DiskShard, Placed, Maybe, Bit, Adds;
      assert |layers.lsmShards| == LSM_SHARDS && |layers.diskShards| == DISK_SHARDS by { PlacedShards(layers, legacyFallback); }
      image := new bv8[bloom.Length](i => 0);
      ghost var empty := image[..];
      AddKeys(image, layers.lsm.Keys);
      ghost var first := image[..];
      AddShards(image, layers.lsmShards);
      AddedTwice(empty, first, image[..], layers.lsm.Keys, KeysOfShards(layers.lsmShards));
      ghost var second := image[..];
      AddKeys(image, layers.disk.Keys);
      AddedTwice(empty, second, image[..], layers.lsm.Keys + KeysOfShards(layers.lsmShards), layers.disk.Keys);
      ghost var third := image[..];
      AddShards(image, layers.diskShards);
      AddedTwice(empty, third, image[..], layers.lsm.Keys + KeysOfShards(layers.lsmShards) + layers.disk.Keys, KeysOfShards(layers.diskShards));
      AllLayers(layers, legacyFallback);
      EmptyFilter(empty);
      OnlyAdded(empty, image[..], Stored().Keys);
    }

    /** The end of the rebuild: OR the image into the live filter and trust it. Needed is
        only that each stored key is in one of the two, which keys written during the
        rebuild are because they went into the live one. */
    method MergeImage(image: array<bv8>)
      requires Valid() && image.Length == bloom.Length && image != bloom
      requires forall k :: k in Stored() ==> Maybe(bloom[..], k) || Maybe(image[..], k)
      modifies this`ready, bloom
      ensures Valid() && ready && Stored() == old(Stored())
      ensures forall k :: Maybe(old(bloom[..]), k) ==> Maybe(bloom[..], k)
      ensures forall b: nat :: Bit(bloom[..], b) <==> Bit(old(bloom[..]), b) || Bit(image[..], b)
    {
      hide Positions, Merged, LsmShard, DiskShard, Placed, Maybe, Bit;
      ghost var was, added := bloom[..], image[..];
      OrMerge(bloom, image);
      forall k | Maybe(was, k) || Maybe(added, k) ensures Maybe(bloom[..], k) {
        MergedAnswersYes(was, added, bloom[..], k);
      }
      ready := true;
    }
  }

  lemma ElseFacts()
    ensures forall a: Option<Digest> :: Else(a, None) == a && Else(None, a) == a
    ensures forall a: Option<Digest>, b: Option<Digest> :: a.Some? ==> Else(a, b) == a
  {
  }

  /** One keyspace per shard, shard by shard: candidates not yet answered are looked up in
      the shard they belong to. */
  method ReadShards(shards: seq<Layer>, place: Digest -> nat, keys: seq<Digest>, candidates: seq<bool>, given: seq<Option<Digest>>)
    returns (r: seq<Option<Digest>>)
    requires |candidates| == |given| == |keys| && forall k :: place(k) < |shards|
    ensures |r| == |keys|
    ensures forall i :: 0 <= i < |keys| ==>
              r[i] == if candidates[i] then Else(given[i], Find(shards[place(keys[i])], keys[i])) else given[i]
  {
    r := given;
    for shard := 0 to |shards|
      invariant |r| == |keys|
      invariant forall i :: 0 <= i < |keys| ==>
                  r[i] == if candidates[i] && place(keys[i]) < shard
                          then Else(given[i], Find(shards[place(keys[i])], keys[i])) else given[i]
    {
      ghost var before := r;
      for index := 0 to |keys|
        invariant |r| == |keys|
        invariant forall i :: index <= i < |keys| ==> r[i] == before[i]
        invariant forall i :: 0 <= i < index ==>
                    r[i] == if candidates[i] && place(keys[i]) == shard then Else(given[i], Find(shards[shard], keys[i]))
                            else before[i]
      {
        if candidates[index] && r[index].None? && place(keys[index]) == shard {
          if keys[index] in shards[shard] {
            r := r[index := Some(shards[shard][keys[index]])];
          }
        }
      }
    }
  }

  method ReadLayer(layer: Layer, keys: seq<Digest>, candidates: seq<bool>, given: seq<Option<Digest>>)
    returns (r: seq<Option<Digest>>)
    requires |candidates| == |given| == |keys|
    ensures |r| == |keys|
    ensures forall i :: 0 <= i < |keys| ==> r[i] == if candidates[i] then Else(given[i], Find(layer, keys[i])) else given[i]
  {
    r := given;
    for index := 0 to |keys|
      invariant |r| == |keys|
      invariant forall i :: index <= i < |keys| ==> r[i] == given[i]
      invariant forall i :: 0 <= i < index ==> r[i] == if candidates[i] then Else(given[i], Find(layer, keys[i])) else given[i]
    {
      if candidates[index] && r[index].None? && keys[index] in layer {
        r := r[index := Some(layer[keys[index]])];
      }
    }
  }

  function KeysOf(entries: Entries): set<Digest> { set i | 0 <= i < |entries| :: entries[i].0 }

  method AddEntries(bloom: array<bv8>, entries: Entries)
    requires bloom.Length > 0
    modifies bloom
    ensures Adds(old(bloom[..]), bloom[..], KeysOf(entries))
  {
    hide Maybe, Bit, Positions, Adds;
    ghost var was := bloom[..];
    AddsNothing(was);
    assert KeysOf(entries[..0]) == {};
    for i := 0 to |entries|
      invariant Adds(was, bloom[..], KeysOf(entries[..i]))
    {
      ghost var before := bloom[..];
      BloomAdd(bloom, entries[i].0);
      AddsOne(before, bloom[..], entries[i].0);
      AddedTwice(was, before, bloom[..], KeysOf(entries[..i]), {entries[i].0});
      assert KeysOf(entries[..i + 1]) == KeysOf(entries[..i]) + {entries[i].0};
    }
    assert entries[..|entries|] == entries;
  }

  method AddKeys(bloom: array<bv8>, keys: set<Digest>)
    requires bloom.Length > 0
    modifies bloom
    ensures Adds(old(bloom[..]), bloom[..], keys)
  {
    hide Maybe, Bit, Positions, Adds;
    ghost var was := bloom[..];
    var left := keys;
    AddsNothing(was);
    assert keys - left == {};
    while left != {}
      invariant left <= keys && Adds(was, bloom[..], keys - left)
      decreases left
    {
      var key :| key in left;
      ghost var before := bloom[..];
      BloomAdd(bloom, key);
      AddsOne(before, bloom[..], key);
      AddedTwice(was, before, bloom[..], keys - left, {key});
      assert keys - (left - {key}) == keys - left + {key};
      left := left - {key};
    }
    assert keys - left == keys;
  }

  function KeysOfShards(shards: seq<Layer>): set<Digest> {
    if shards == [] then {} else KeysOfShards(shards[..|shards| - 1]) + shards[|shards| - 1].Keys
  }

  lemma {:induction false} InSomeShard(shards: seq<Layer>, key: Digest)
    ensures key in KeysOfShards(shards) <==> exists at :: 0 <= at < |shards| && key in shards[at]
  {
    if shards != [] {
      var m := |shards| - 1;
      InSomeShard(shards[..m], key);
      if at :| 0 <= at < |shards| && key in shards[at] {
        assert at < m ==> shards[..m][at] == shards[at];
      }
    }
  }

  method AddShards(bloom: array<bv8>, shards: seq<Layer>)
    requires bloom.Length > 0
    modifies bloom
    ensures Adds(old(bloom[..]), bloom[..], KeysOfShards(shards))
  {
    hide Maybe, Bit, Positions, Adds;
    ghost var was := bloom[..];
    AddsNothing(was);
    for i := 0 to |shards|
      invariant Adds(was, bloom[..], KeysOfShards(shards[..i]))
    {
      assert shards[..i + 1][..i] == shards[..i];
      ghost var before := bloom[..];
      AddKeys(bloom, shards[i].Keys);
      AddedTwice(was, before, bloom[..], KeysOfShards(shards[..i]), shards[i].Keys);
    }
    assert shards[..|shards|] == shards;
  }

  // ----- Exactly which bits are set -----

  /** The bits of these keys are added to the filter, and no other. */
  ghost predicate Adds(was: seq<bv8>, bloom: seq<bv8>, keys: set<Digest>) {
    && |bloom| == |was| > 0
    && forall b: nat :: Bit(bloom, b) <==> Bit(was, b) || exists k :: k in keys && b in Positions(k, 8 * |bloom|)
  }

  lemma AddsNothing(bloom: seq<bv8>)
    requires |bloom| > 0
    ensures Adds(bloom, bloom, {})
  {
    hide Bit, Positions;
  }

  lemma AddsOne(was: seq<bv8>, bloom: seq<bv8>, key: Digest)
    requires |was| == |bloom| > 0
    requires forall b: nat :: Bit(bloom, b) <==> Bit(was, b) || b in Positions(key, 8 * |bloom|)
    ensures Adds(was, bloom, {key})
  {
    hide Bit, Positions;
  }

  lemma AddedTwice(a: seq<bv8>, b: seq<bv8>, c: seq<bv8>, first: set<Digest>, second: set<Digest>)
    requires Adds(a, b, first) && Adds(b, c, second)
    ensures Adds(a, c, first + second)
  {
    hide Bit, Positions;
    forall x: nat
      ensures Bit(c, x) <==> Bit(a, x) || exists k :: k in first + second && x in Positions(k, 8 * |c|)
    {
      if k :| k in first && x in Positions(k, 8 * |c|) { assert k in first + second; }
      if k :| k in second && x in Positions(k, 8 * |c|) { assert k in first + second; }
    }
  }

  /** Keys that were added answer yes, and so do all that did before. */
  lemma AddsAnswerYes(was: seq<bv8>, bloom: seq<bv8>, keys: set<Digest>)
    requires Adds(was, bloom, keys)
    ensures Covers(bloom, keys)
    ensures forall k :: Maybe(was, k) ==> Maybe(bloom, k)
  {
    hide Bit, B.FromLE;
    forall k, i: nat | k in keys && i < 4 ensures Bit(bloom, BitPosition(k, i, 8 * |bloom|)) {
      assert BitPosition(k, i, 8 * |bloom|) in Positions(k, 8 * |bloom|);
    }
  }

  lemma EmptyFilter(bloom: seq<bv8>)
    requires forall i :: 0 <= i < |bloom| ==> bloom[i] == 0
    ensures forall b: nat :: !Bit(bloom, b)
  {
    hide Test;
    forall b: nat ensures !Bit(bloom, b) {
      if b / 8 < |bloom| { TestOfZero(b % 8); }
    }
  }

  lemma OnlyAdded(empty: seq<bv8>, bloom: seq<bv8>, keys: set<Digest>)
    requires Adds(empty, bloom, keys) && forall b: nat :: !Bit(empty, b)
    ensures Covers(bloom, keys)
    ensures forall b: nat :: Bit(bloom, b) <==> exists k :: k in keys && b in Positions(k, 8 * |bloom|)
  {
    hide Bit, Positions, Maybe;
    AddsAnswerYes(empty, bloom, keys);
  }

  /** The keys of the layers are the keys of the plain map. */
  lemma AllLayers(l: Layers, fallback: bool)
    requires Placed(l, fallback)
    ensures l.lsm.Keys + KeysOfShards(l.lsmShards) + l.disk.Keys + KeysOfShards(l.diskShards) == Merged(l).Keys
  {
    hide Union;
    forall k ensures k in Merged(l) <==> k in l.lsm || k in KeysOfShards(l.lsmShards) || k in l.disk || k in KeysOfShards(l.diskShards) {
      InSomeShard(l.lsmShards, k);
      InSomeShard(l.diskShards, k);
      UnionKeys(l.lsmShards, k);
      UnionKeys(l.diskShards, k);
    }
  }

  lemma {:induction false} UnionKeys(shards: seq<Layer>, key: Digest)
    ensures key in Union(shards) <==> exists at :: 0 <= at < |shards| && key in shards[at]
  {
    if shards != [] {
      var m := |shards| - 1;
      UnionKeys(shards[..m], key);
      if at :| 0 <= at < |shards| && key in shards[at] {
        assert at < m ==> shards[..m][at] == shards[at];
      }
    }
  }

  /** No key of the set is answered no. */
  ghost predicate Covers(bloom: seq<bv8>, keys: set<Digest>) {
    |bloom| > 0 && forall k :: k in keys ==> Maybe(bloom, k)
  }
}
