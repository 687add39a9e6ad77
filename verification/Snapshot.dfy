/** The state snapshot (src/snapshot.rs): payload format, file framing, and what comes
    back from a saved snapshot. */
module Snapshot {
  import opened Model
  import opened Binary

  const MAGIC: Bytes := [0x57, 0x48, 0x53, 0x4E, 0x41, 0x50, 0x30, 0x32]   // WHSNAP02
  const LEGACY_MAGIC: Bytes := [0x57, 0x48, 0x53, 0x4E, 0x41, 0x50, 0x30, 0x31]   // WHSNAP01
  const HEADER_SIZE: nat := 48
  const MAX_ITEMS := 100_000_000
  const MAX_PAYLOAD := 0x1_0000_0000      // 4 GiB

  type U32 = n: int | 0 <= n < 0x1_0000_0000
  type Digest = b: Bytes | |b| == 32 witness seq(32, _ => 0)

  /** SHA-256 is any function of the payload. */
  type Hash = Bytes -> Digest

  datatype BalanceEntry = BalanceEntry(owner: Text, sku: Text, balance: I64)
  datatype DedupEntry = DedupEntry(id: Text, fingerprint: Digest)
  datatype Data = Data(version: U32, sequence: U64, balances: seq<BalanceEntry>, dedup: seq<DedupEntry>, epoch: U64)

  // ----- Lists of entries, for any entry format -----

  function ListBytes<T>(enc: T -> Bytes, xs: seq<T>): Bytes {
    if xs == [] then [] else ListBytes(enc, xs[..|xs| - 1]) + enc(xs[|xs| - 1])
  }

  ghost predicate All<T>(ok: T -> bool, xs: seq<T>) {
    forall i :: 0 <= i < |xs| ==> ok(xs[i])
  }

  /** An encoding determines the entry and what follows it. */
  ghost predicate PrefixFree<T(!new)>(ok: T -> bool, enc: T -> Bytes) {
    forall a, s, b, t :: ok(a) && ok(b) && enc(a) + s == enc(b) + t ==> a == b && s == t
  }

  ghost predicate NoEntry<T(!new)>(ok: T -> bool, enc: T -> Bytes, b: Bytes) {
    forall v, t :: ok(v) ==> b != enc(v) + t
  }

  function CountedList<T>(enc: T -> Bytes, xs: seq<T>): Bytes { LE(8, |xs|) + ListBytes(enc, xs) }

  ghost predicate ListFits<T>(ok: T -> bool, xs: seq<T>) { All(ok, xs) && |xs| <= MAX_ITEMS }

  ghost predicate NoList<T(!new)>(ok: T -> bool, enc: T -> Bytes, b: Bytes) {
    forall v: seq<T>, t: Bytes :: ListFits(ok, v) ==> b != CountedList(enc, v) + t
  }

  lemma {:induction false} ListDetermines<T(!new)>(ok: T -> bool, enc: T -> Bytes, a: seq<T>, s: Bytes, b: seq<T>, t: Bytes)
    requires PrefixFree(ok, enc) && All(ok, a) && All(ok, b) && |a| == |b|
    requires ListBytes(enc, a) + s == ListBytes(enc, b) + t
    ensures a == b && s == t
  {
    if a != [] {
      var m := |a| - 1;
      Assoc(ListBytes(enc, a[..m]), enc(a[m]), s);
      Assoc(ListBytes(enc, b[..m]), enc(b[m]), t);
      ListDetermines(ok, enc, a[..m], enc(a[m]) + s, b[..m], enc(b[m]) + t);
      assert a == a[..m] + [a[m]] && b == b[..m] + [b[m]];
    } else {
      assert [] + s == s && [] + t == t;
    }
  }

  lemma CountedListDetermines<T(!new)>(ok: T -> bool, enc: T -> Bytes, a: seq<T>, s: Bytes, b: seq<T>, t: Bytes)
    requires PrefixFree(ok, enc) && All(ok, a) && All(ok, b) && |a| <= MAX_U64 && |b| <= MAX_U64
    requires CountedList(enc, a) + s == CountedList(enc, b) + t
    ensures a == b && s == t
  {
    hide PrefixFree, All, ListBytes, LE;
    Widths();
    Assoc(LE(8, |a|), ListBytes(enc, a), s);
    Assoc(LE(8, |b|), ListBytes(enc, b), t);
    LEDetermines(8, |a|, ListBytes(enc, a) + s, |b|, ListBytes(enc, b) + t);
    ListDetermines(ok, enc, a, s, b, t);
  }

  lemma {:induction false} ListSplits<T>(enc: T -> Bytes, a: seq<T>, b: seq<T>)
    ensures ListBytes(enc, a + b) == ListBytes(enc, a) + ListBytes(enc, b)
  {
    if b == [] {
      assert a + b == a;
    } else {
      var m := |b| - 1;
      assert (a + b)[..|a + b| - 1] == a + b[..m];
      ListSplits(enc, a, b[..m]);
      Assoc(ListBytes(enc, a), ListBytes(enc, b[..m]), enc(b[m]));
    }
  }

  lemma ListGrows<T>(enc: T -> Bytes, xs: seq<T>, x: T, rest: Bytes)
    ensures ListBytes(enc, xs) + (enc(x) + rest) == ListBytes(enc, xs + [x]) + rest
  {
    assert (xs + [x])[..|xs|] == xs;
    Assoc(ListBytes(enc, xs), enc(x), rest);
  }

  lemma SplitBehind<T>(xs: seq<T>, i: nat)
    requires i < |xs|
    ensures xs == (xs[..i] + [xs[i]]) + xs[i + 1..]
  {
  }

  lemma NextEntry<T>(enc: T -> Bytes, xs: seq<T>, i: nat)
    requires i < |xs|
    ensures ListBytes(enc, xs) == ListBytes(enc, xs[..i]) + (enc(xs[i]) + ListBytes(enc, xs[i + 1..]))
  {
    hide ListBytes;
    var before, after := xs[..i] + [xs[i]], xs[i + 1..];
    SplitBehind(xs, i);
    ListSplits(enc, before, after);
    ListGrows(enc, xs[..i], xs[i], ListBytes(enc, after));
  }

  /** The loop that failed at entry `|read|` could not have succeeded otherwise. */
  lemma NoLaterEntry<T(!new)>(ok: T -> bool, enc: T -> Bytes, count: nat, read: seq<T>, b: Bytes)
    requires PrefixFree(ok, enc) && |read| < count <= MAX_ITEMS && All(ok, read) && NoEntry(ok, enc, b)
    ensures NoList(ok, enc, LE(8, count) + (ListBytes(enc, read) + b))
  {
    hide PrefixFree, ListBytes, LE;
    Widths();
    var all := ListBytes(enc, read) + b;
    forall v: seq<T>, t: Bytes | ListFits(ok, v) && LE(8, count) + all == CountedList(enc, v) + t ensures false {
      Assoc(LE(8, |v|), ListBytes(enc, v), t);
      LEDetermines(8, count, all, |v|, ListBytes(enc, v) + t);
      var i := |read|;
      NextEntry(enc, v, i);
      var behind := enc(v[i]) + (ListBytes(enc, v[i + 1..]) + t);
      Assoc(ListBytes(enc, v[..i]), enc(v[i]) + ListBytes(enc, v[i + 1..]), t);
      Assoc(enc(v[i]), ListBytes(enc, v[i + 1..]), t);
      ListDetermines(ok, enc, read, b, v[..i], behind);
    }
  }

  lemma NoCountNoList<T(!new)>(ok: T -> bool, enc: T -> Bytes, b: Bytes)
    requires |b| < 8 || FromLE(b[..8]) > MAX_ITEMS
    ensures NoList(ok, enc, b)
  {
    hide LE, ListBytes, FromLE;
    Widths();
    forall v: seq<T>, t: Bytes | ListFits(ok, v) ensures b != CountedList(enc, v) + t {
      var whole := CountedList(enc, v) + t;
      Assoc(LE(8, |v|), ListBytes(enc, v), t);
      assert whole[..8] == LE(8, |v|);
      LERoundTrip(8, |v|);
    }
  }

  // ----- The two kinds of entries -----

  predicate BalanceOk(e: BalanceEntry) { Short(e.owner) && Short(e.sku) }

  function BalanceBytes(e: BalanceEntry): Bytes { StringBytes(e.owner) + (StringBytes(e.sku) + LE(8, ToUnsigned(e.balance))) }

  predicate DedupOk(e: DedupEntry) { Short(e.id) }

  function DedupBytes(e: DedupEntry): Bytes { StringBytes(e.id) + e.fingerprint }

  lemma BalanceParts(e: BalanceEntry, t: Bytes)
    ensures BalanceBytes(e) + t == StringBytes(e.owner) + (StringBytes(e.sku) + (LE(8, ToUnsigned(e.balance)) + t))
  {
    hide StringBytes, LE;
    Assoc(StringBytes(e.owner), StringBytes(e.sku) + LE(8, ToUnsigned(e.balance)), t);
    Assoc(StringBytes(e.sku), LE(8, ToUnsigned(e.balance)), t);
  }

  lemma BalancesArePrefixFree()
    ensures PrefixFree(BalanceOk, BalanceBytes)
  {
    hide StringBytes, LE, BalanceBytes;
    Widths();
    forall a, s, b, t | BalanceOk(a) && BalanceOk(b) && BalanceBytes(a) + s == BalanceBytes(b) + t
      ensures a == b && s == t
    {
      BalanceParts(a, s);
      BalanceParts(b, t);
      var x, y := LE(8, ToUnsigned(a.balance)) + s, LE(8, ToUnsigned(b.balance)) + t;
      StringDetermines(a.owner, StringBytes(a.sku) + x, b.owner, StringBytes(b.sku) + y);
      StringDetermines(a.sku, x, b.sku, y);
      LEDetermines(8, ToUnsigned(a.balance), s, ToUnsigned(b.balance), t);
    }
  }

  lemma DedupsArePrefixFree()
    ensures PrefixFree(DedupOk, DedupBytes)
  {
    hide StringBytes;
    forall a, s, b, t | DedupOk(a) && DedupOk(b) && DedupBytes(a) + s == DedupBytes(b) + t ensures a == b && s == t {
      Assoc(StringBytes(a.id), a.fingerprint, s);
      Assoc(StringBytes(b.id), b.fingerprint, t);
      StringDetermines(a.id, a.fingerprint + s, b.id, b.fingerprint + t);
      SameCut(a.fingerprint, s, b.fingerprint, t);
    }
  }

  // ----- The payload -----

  function EpochBytes(version: U32, epoch: U64): Bytes { if version >= 3 then LE(8, epoch) else [] }

  function BehindHeader(s: Data): Bytes {
    CountedList(BalanceBytes, s.balances) + (CountedList(DedupBytes, s.dedup) + EpochBytes(s.version, s.epoch))
  }

  function Encoded(s: Data): Bytes { LE(4, s.version) + (LE(8, s.sequence) + BehindHeader(s)) }

  ghost predicate Encodable(s: Data) {
    All(BalanceOk, s.balances) && All(DedupOk, s.dedup) && |s.balances| <= MAX_U64 && |s.dedup| <= MAX_U64
  }

  /** What decode can give back: sane counts, and no epoch where the format has no room
      for one. */
  ghost predicate Decodable(s: Data) {
    ListFits(BalanceOk, s.balances) && ListFits(DedupOk, s.dedup) && (s.version < 3 ==> s.epoch == 0)
  }

  /** Without its epoch if the version cannot carry it: what a snapshot says on disk. */
  function Stored(s: Data): Data { if s.version >= 3 then s else s.(epoch := 0) }

  lemma HeaderDetermines(a: Data, s: Bytes, b: Data, t: Bytes)
    requires Encoded(a) + s == Encoded(b) + t
    ensures a.version == b.version && a.sequence == b.sequence && BehindHeader(a) + s == BehindHeader(b) + t
  {
    hide LE, BehindHeader;
    Widths();
    var x, y := BehindHeader(a), BehindHeader(b);
    Assoc(LE(4, a.version), LE(8, a.sequence) + x, s);
    Assoc(LE(4, b.version), LE(8, b.sequence) + y, t);
    Assoc(LE(8, a.sequence), x, s);
    Assoc(LE(8, b.sequence), y, t);
    LEDetermines(4, a.version, LE(8, a.sequence) + (x + s), b.version, LE(8, b.sequence) + (y + t));
    LEDetermines(8, a.sequence, x + s, b.sequence, y + t);
  }

  lemma BehindHeaderParts(a: Data, s: Bytes)
    ensures BehindHeader(a) + s
            == CountedList(BalanceBytes, a.balances) + (CountedList(DedupBytes, a.dedup) + (EpochBytes(a.version, a.epoch) + s))
  {
    hide CountedList, EpochBytes;
    Assoc(CountedList(BalanceBytes, a.balances), CountedList(DedupBytes, a.dedup) + EpochBytes(a.version, a.epoch), s);
    Assoc(CountedList(DedupBytes, a.dedup), EpochBytes(a.version, a.epoch), s);
  }

  /** Payloads are a prefix code up to the epoch that old versions drop. */
  lemma PayloadDetermines(a: Data, s: Bytes, b: Data, t: Bytes)
    requires Encodable(a) && Encodable(b) && Encoded(a) + s == Encoded(b) + t
    ensures Stored(a) == Stored(b) && s == t
  {
    hide Encoded, BehindHeader, CountedList, PrefixFree, All, LE;
    Widths();
    HeaderDetermines(a, s, b, t);
    BehindHeaderParts(a, s);
    BehindHeaderParts(b, t);
    BalancesArePrefixFree();
    DedupsArePrefixFree();
    var x, y := EpochBytes(a.version, a.epoch) + s, EpochBytes(b.version, b.epoch) + t;
    CountedListDetermines(BalanceOk, BalanceBytes, a.balances, CountedList(DedupBytes, a.dedup) + x,
                          b.balances, CountedList(DedupBytes, b.dedup) + y);
    CountedListDetermines(DedupOk, DedupBytes, a.dedup, x, b.dedup, y);
    if a.version >= 3 {
      LEDetermines(8, a.epoch, s, b.epoch, t);
    } else {
      assert [] + s == s && [] + t == t;
    }
  }

  // ----- The payload byte by byte -----

  /** A balance: owner, SKU, then the number in two's complement. */
  ghost predicate BalanceAt(b: Bytes, at: nat, e: BalanceEntry, next: nat) {
    var sku := at + 2 + |e.owner|;
    var number := sku + 2 + |e.sku|;
    && next == number + 8 && next <= |b|
    && TextAt(b, at, e.owner, sku) && TextAt(b, sku, e.sku, number)
    && (Number8(b, number) - e.balance) % 0x1_0000_0000_0000_0000 == 0
  }

  /** A remembered operation: its id, then 32 bytes of fingerprint. */
  ghost predicate DedupAt(b: Bytes, at: nat, e: DedupEntry, next: nat) {
    var digest := at + 2 + |e.id|;
    next == digest + 32 && next <= |b| && TextAt(b, at, e.id, digest) && b[digest..next] == e.fingerprint
  }

  /** One entry after the other; `at` says where each begins. */
  ghost predicate AllAt<T>(entryAt: (Bytes, nat, T, nat) -> bool, b: Bytes, xs: seq<T>, at: seq<nat>) {
    |at| == |xs| + 1 && forall i :: 0 <= i < |xs| ==> entryAt(b, at[i], xs[i], at[i + 1])
  }

  ghost predicate EntriesAt<T>(entryAt: (Bytes, nat, T, nat) -> bool, b: Bytes, first: nat, xs: seq<T>, next: nat) {
    exists at :: AllAt(entryAt, b, xs, at) && at[0] == first && at[|xs|] == next
  }

  /** Version, sequence, counted balances up to `middle`, counted ids up to `end`, and the
      epoch from version 3 on. */
  ghost predicate PartsAt(b: Bytes, s: Data, middle: nat, end: nat) {
    && 20 <= middle <= |b| - 8 && middle + 8 <= end <= |b|
    && Number4(b, 0) == s.version && Number8(b, 4) == s.sequence
    && Number8(b, 12) == |s.balances| && EntriesAt(BalanceAt, b, 20, s.balances, middle)
    && Number8(b, middle) == |s.dedup| && EntriesAt(DedupAt, b, middle + 8, s.dedup, end)
    && if s.version >= 3 then |b| == end + 8 && Number8(b, end) == s.epoch else |b| == end
  }

  ghost predicate LaidOut(b: Bytes, s: Data) {
    exists middle, end :: PartsAt(b, s, middle, end)
  }

  ghost predicate Places<T(!new)>(ok: T -> bool, enc: T -> Bytes, entryAt: (Bytes, nat, T, nat) -> bool) {
    forall pre, x, post :: ok(x) ==> entryAt(pre + (enc(x) + post), |pre|, x, |pre| + |enc(x)|)
  }

  lemma BalanceIsAt()
    ensures Places(BalanceOk, BalanceBytes, BalanceAt)
  {
    hide LE, Number8, TextAt;
    forall pre, e, post | BalanceOk(e)
      ensures BalanceAt(pre + (BalanceBytes(e) + post), |pre|, e, |pre| + |BalanceBytes(e)|)
    {
      var x, y, w := StringBytes(e.owner), StringBytes(e.sku), LE(8, ToUnsigned(e.balance));
      var b := pre + (BalanceBytes(e) + post);
      TextIsAt(pre, e.owner, y + w + post);
      TextIsAt(pre + x, e.sku, w + post);
      NumberOf8(pre + x + y, ToUnsigned(e.balance), post);
      assert b == pre + (x + (y + w + post));
      assert b == (pre + x) + (y + (w + post));
      assert b == (pre + x + y) + (w + post);
    }
  }

  lemma DedupIsAt()
    ensures Places(DedupOk, DedupBytes, DedupAt)
  {
    hide LE, TextAt;
    forall pre, e, post | DedupOk(e) ensures DedupAt(pre + (DedupBytes(e) + post), |pre|, e, |pre| + |DedupBytes(e)|) {
      var x, d: Bytes := StringBytes(e.id), e.fingerprint;
      var b := pre + (DedupBytes(e) + post);
      TextIsAt(pre, e.id, d + post);
      assert b == pre + (x + (d + post));
      assert b == (pre + x) + (d + post);
      assert b[|pre + x|..|pre + x| + 32] == d;
    }
  }

  lemma {:induction false} EntriesAreAt<T(!new)>(ok: T -> bool, enc: T -> Bytes, entryAt: (Bytes, nat, T, nat) -> bool,
                                                 pre: Bytes, xs: seq<T>, post: Bytes)
    requires Places(ok, enc, entryAt) && All(ok, xs)
    ensures EntriesAt(entryAt, pre + (ListBytes(enc, xs) + post), |pre|, xs, |pre| + |ListBytes(enc, xs)|)
  {
    var b := pre + (ListBytes(enc, xs) + post);
    if xs == [] {
      assert AllAt(entryAt, b, xs, [|pre|]);
    } else {
      var m := |xs| - 1;
      var before, last := ListBytes(enc, xs[..m]), enc(xs[m]);
      EntriesAreAt(ok, enc, entryAt, pre, xs[..m], last + post);
      assert b == pre + (before + (last + post));
      var at: seq<nat> :| AllAt(entryAt, b, xs[..m], at) && at[0] == |pre| && at[m] == |pre| + |before|;
      assert b == (pre + before) + (last + post);
      assert entryAt((pre + before) + (enc(xs[m]) + post), |pre + before|, xs[m], |pre + before| + |enc(xs[m])|);
      var more: seq<nat> := at + [|pre| + |before| + |last|];
      forall i | 0 <= i < |xs| ensures entryAt(b, more[i], xs[i], more[i + 1]) {
        if i < m { assert xs[..m][i] == xs[i]; }
      }
      assert AllAt(entryAt, b, xs, more);
    }
  }

  /** A count and its entries, wherever they stand. */
  lemma CountedIsAt<T(!new)>(ok: T -> bool, enc: T -> Bytes, entryAt: (Bytes, nat, T, nat) -> bool,
                             pre: Bytes, xs: seq<T>, post: Bytes)
    requires Places(ok, enc, entryAt) && All(ok, xs) && |xs| <= MAX_U64
    ensures var b := pre + (CountedList(enc, xs) + post);
            && |b| >= |pre| + 8 && Number8(b, |pre|) == |xs|
            && |CountedList(enc, xs)| == 8 + |ListBytes(enc, xs)|
            && EntriesAt(entryAt, b, |pre| + 8, xs, |pre| + |CountedList(enc, xs)|)
  {
    hide LE, Number8, ListBytes, EntriesAt, Places, All;
    var n, body := LE(8, |xs|), ListBytes(enc, xs);
    var b := pre + (CountedList(enc, xs) + post);
    NumberOf8(pre, |xs|, body + post);
    EntriesAreAt(ok, enc, entryAt, pre + n, xs, post);
    assert b == pre + (n + (body + post));
    assert b == (pre + n) + (body + post);
  }

  /** Where everything is in an encoded snapshot. */
  lemma PayloadLayout(s: Data)
    requires Encodable(s)
    ensures LaidOut(Encoded(s), s)
  {
    hide LE, Number4, Number8, CountedList, EntriesAt, Places, All;
    BalanceIsAt();
    DedupIsAt();
    var v, q, c, d, e := LE(4, s.version), LE(8, s.sequence), CountedList(BalanceBytes, s.balances),
                         CountedList(DedupBytes, s.dedup), EpochBytes(s.version, s.epoch);
    var b := Encoded(s);
    NumberOf4([], s.version, q + (c + (d + e)));
    NumberOf8(v, s.sequence, c + (d + e));
    CountedIsAt(BalanceOk, BalanceBytes, BalanceAt, v + q, s.balances, d + e);
    CountedIsAt(DedupOk, DedupBytes, DedupAt, v + q + c, s.dedup, e);
    assert [] + (v + (q + (c + (d + e)))) == b;
    assert b == v + (q + (c + (d + e))) && b == (v + q) + (c + (d + e)) && b == (v + q + c) + (d + e);
    if s.version >= 3 {
      NumberOf8(v + q + c + d, s.epoch, []);
      assert b == (v + q + c + d) + (LE(8, s.epoch) + []);
    }
    assert PartsAt(b, s, |v + q + c|, |v + q + c + d|);
  }

  // ----- Encoding -----

  method PutBalances(out: Buffer, balances: seq<BalanceEntry>) returns (ok: bool)
    modifies out
    ensures ok <==> All(BalanceOk, balances)
    ensures ok ==> out.data == old(out.data) + CountedList(BalanceBytes, balances)
  {
    hide StringBytes, LE;
    out.Push(LE(8, |balances|));
    ghost var start := out.data;
    for i := 0 to |balances|
      invariant out.data == start + ListBytes(BalanceBytes, balances[..i])
      invariant All(BalanceOk, balances[..i])
    {
      var entry := balances[i];
      ghost var before := out.data;
      var put := out.PutString(entry.owner);
      if !put { return false; }
      put := out.PutString(entry.sku);
      if !put { return false; }
      out.Push(LE(8, ToUnsigned(entry.balance)));
      AppendedInParts(before, StringBytes(entry.owner), StringBytes(entry.sku), LE(8, ToUnsigned(entry.balance)));
      ListAppends(BalanceBytes, start, balances, i);
    }
    assert balances[..|balances|] == balances;
    Assoc(old(out.data), LE(8, |balances|), ListBytes(BalanceBytes, balances));
    ok := true;
  }

  lemma AppendedInParts(before: Bytes, a: Bytes, b: Bytes, c: Bytes)
    ensures ((before + a) + b) + c == before + (a + (b + c))
  {
  }

  lemma ListAppends<T>(enc: T -> Bytes, start: Bytes, xs: seq<T>, i: nat)
    requires i < |xs|
    ensures (start + ListBytes(enc, xs[..i])) + enc(xs[i]) == start + ListBytes(enc, xs[..i + 1])
  {
    assert xs[..i + 1][..i] == xs[..i];
    Assoc(start, ListBytes(enc, xs[..i]), enc(xs[i]));
  }

  method PutDedup(out: Buffer, dedup: seq<DedupEntry>) returns (ok: bool)
    modifies out
    ensures ok <==> All(DedupOk, dedup)
    ensures ok ==> out.data == old(out.data) + CountedList(DedupBytes, dedup)
  {
    hide StringBytes, LE;
    out.Push(LE(8, |dedup|));
    ghost var start := out.data;
    for i := 0 to |dedup|
      invariant out.data == start + ListBytes(DedupBytes, dedup[..i])
      invariant All(DedupOk, dedup[..i])
    {
      ghost var before := out.data;
      var put := out.PutString(dedup[i].id);
      if !put { return false; }
      out.Push(dedup[i].fingerprint);
      Assoc(before, StringBytes(dedup[i].id), dedup[i].fingerprint);
      ListAppends(DedupBytes, start, dedup, i);
    }
    assert dedup[..|dedup|] == dedup;
    Assoc(old(out.data), LE(8, |dedup|), ListBytes(DedupBytes, dedup));
    ok := true;
  }

  /** encode: refuses nothing but strings a u16 cannot count. */
  method Encode(s: Data) returns (r: Result<Bytes>)
    ensures r.Ok? <==> All(BalanceOk, s.balances) && All(DedupOk, s.dedup)
    ensures r.Ok? ==> r.value == Encoded(s)
    ensures r.Ok? && |s.balances| <= MAX_U64 && |s.dedup| <= MAX_U64 ==> LaidOut(r.value, s)
  {
    hide CountedList, LE, All, LaidOut;
    if Encodable(s) { PayloadLayout(s); }
    var out := new Buffer();
    out.Push(LE(4, s.version));
    out.Push(LE(8, s.sequence));
    var ok := PutBalances(out, s.balances);
    if !ok { return Err; }
    ok := PutDedup(out, s.dedup);
    if !ok { return Err; }
    var balances, dedup := CountedList(BalanceBytes, s.balances), CountedList(DedupBytes, s.dedup);
    if s.version >= 3 { out.Push(LE(8, s.epoch)); }
    AppendedPayload(LE(4, s.version), LE(8, s.sequence), balances, dedup, EpochBytes(s.version, s.epoch));
    r := Ok(out.data);
  }

  lemma AppendedPayload(a: Bytes, b: Bytes, c: Bytes, d: Bytes, e: Bytes)
    ensures ((((([] + a) + b) + c) + d) + e) == a + (b + (c + (d + e)))
    ensures e == [] ==> (((([] + a) + b) + c) + d) == a + (b + (c + (d + e)))
  {
    Assoc4(a, b, c, d);
    Assoc(a, b + (c + d), e);
    Assoc(b, c + d, e);
    Assoc(c, d, e);
    if e == [] { assert d + e == d; }
  }

  // ----- Decoding -----

  /** A count, refused above 100,000,000. */
  method ReadCount(reader: Reader) returns (r: Result<nat>)
    requires reader.Valid()
    modifies reader`cursor
    ensures reader.Valid()
    ensures r.Ok? ==> r.value <= MAX_ITEMS && old(reader.Rest()) == LE(8, r.value) + reader.Rest()
    ensures r.Err? ==> |old(reader.Rest())| < 8 || FromLE(old(reader.Rest())[..8]) > MAX_ITEMS
  {
    hide LE, FromLE;
    Widths();
    ghost var before := reader.Rest();
    r := reader.Number(8);
    if r.Ok? && r.value > MAX_ITEMS {
      assert before[..8] == LE(8, r.value);
      LERoundTrip(8, r.value);
      r := Err;
    }
  }

  method ReadBalance(reader: Reader) returns (r: Result<BalanceEntry>)
    requires reader.Valid()
    modifies reader`cursor
    ensures reader.Valid()
    ensures r.Ok? ==> BalanceOk(r.value) && old(reader.Rest()) == BalanceBytes(r.value) + reader.Rest()
    ensures r.Err? ==> NoEntry(BalanceOk, BalanceBytes, old(reader.Rest()))
  {
    hide StringBytes, LE, NoString, NoEntry, BalanceBytes;
    ghost var b0 := reader.Rest();
    var owner := reader.ReadString();
    ghost var b1 := reader.Rest();
    if owner.Err? {
      NoOwner(b0);
      return Err;
    }
    var sku := reader.ReadString();
    ghost var b2 := reader.Rest();
    if sku.Err? {
      NoSku(owner.value, b1);
      return Err;
    }
    var balance := reader.ReadI64();
    if balance.Err? {
      NoBalance(owner.value, sku.value, b2);
      return Err;
    }
    r := Ok(BalanceEntry(owner.value, sku.value, balance.value));
    BalanceParts(r.value, reader.Rest());
  }

  lemma NoOwner(b: Bytes)
    requires NoString(b)
    ensures NoEntry(BalanceOk, BalanceBytes, b)
  {
    hide StringBytes, LE, BalanceBytes;
    forall v, t | BalanceOk(v) ensures b != BalanceBytes(v) + t {
      BalanceParts(v, t);
    }
  }

  lemma NoSku(owner: Text, b: Bytes)
    requires Short(owner) && NoString(b)
    ensures NoEntry(BalanceOk, BalanceBytes, StringBytes(owner) + b)
  {
    hide StringBytes, LE, BalanceBytes;
    forall v, t | BalanceOk(v) ensures StringBytes(owner) + b != BalanceBytes(v) + t {
      BalanceParts(v, t);
      if StringBytes(owner) + b == BalanceBytes(v) + t {
        StringDetermines(owner, b, v.owner, StringBytes(v.sku) + (LE(8, ToUnsigned(v.balance)) + t));
      }
    }
  }

  lemma NoBalance(owner: Text, sku: Text, b: Bytes)
    requires Short(owner) && Short(sku) && |b| < 8
    ensures NoEntry(BalanceOk, BalanceBytes, StringBytes(owner) + (StringBytes(sku) + b))
  {
    hide StringBytes, LE, BalanceBytes;
    var rest := StringBytes(sku) + b;
    forall v, t | BalanceOk(v) ensures StringBytes(owner) + rest != BalanceBytes(v) + t {
      BalanceParts(v, t);
      var last := LE(8, ToUnsigned(v.balance)) + t;
      assert |last| >= 8;
      if StringBytes(owner) + rest == BalanceBytes(v) + t {
        StringDetermines(owner, rest, v.owner, StringBytes(v.sku) + last);
        StringDetermines(sku, b, v.sku, last);
      }
    }
  }

  method ReadDedup(reader: Reader) returns (r: Result<DedupEntry>)
    requires reader.Valid()
    modifies reader`cursor
    ensures reader.Valid()
    ensures r.Ok? ==> DedupOk(r.value) && old(reader.Rest()) == DedupBytes(r.value) + reader.Rest()
    ensures r.Err? ==> NoEntry(DedupOk, DedupBytes, old(reader.Rest()))
  {
    hide StringBytes, NoString, NoEntry;
    ghost var b0 := reader.Rest();
    var id := reader.ReadString();
    ghost var b1 := reader.Rest();
    if id.Err? {
      NoDedup(b0);
      return Err;
    }
    var fingerprint := reader.Take(32);
    if fingerprint.Err? {
      NoFingerprint(id.value, b1);
      return Err;
    }
    r := Ok(DedupEntry(id.value, fingerprint.value));
    Assoc(StringBytes(id.value), fingerprint.value, reader.Rest());
  }

  lemma NoDedup(b: Bytes)
    requires NoString(b)
    ensures NoEntry(DedupOk, DedupBytes, b)
  {
    hide StringBytes;
    forall v, t | DedupOk(v) ensures b != DedupBytes(v) + t {
      Assoc(StringBytes(v.id), v.fingerprint, t);
    }
  }

  lemma NoFingerprint(id: Text, b: Bytes)
    requires Short(id) && |b| < 32
    ensures NoEntry(DedupOk, DedupBytes, StringBytes(id) + b)
  {
    hide StringBytes;
    forall v, t | DedupOk(v) ensures StringBytes(id) + b != DedupBytes(v) + t {
      Assoc(StringBytes(v.id), v.fingerprint, t);
      assert |v.fingerprint + t| >= 32;
      if StringBytes(id) + b == DedupBytes(v) + t {
        StringDetermines(id, b, v.id, v.fingerprint + t);
      }
    }
  }

  method ReadBalances(reader: Reader) returns (r: Result<seq<BalanceEntry>>)
    requires reader.Valid()
    modifies reader`cursor
    ensures reader.Valid()
    ensures r.Ok? ==> ListFits(BalanceOk, r.value) && old(reader.Rest()) == CountedList(BalanceBytes, r.value) + reader.Rest()
    ensures r.Err? ==> NoList(BalanceOk, BalanceBytes, old(reader.Rest()))
  {
    hide LE, FromLE, NoEntry, NoList, BalanceBytes, PrefixFree;
    BalancesArePrefixFree();
    ghost var b0 := reader.Rest();
    var count := ReadCount(reader);
    if count.Err? {
      NoCountNoList(BalanceOk, BalanceBytes, b0);
      return Err;
    }
    ghost var b1 := reader.Rest();
    var result := [];
    for i := 0 to count.value
      invariant reader.Valid() && |result| == i && All(BalanceOk, result)
      invariant b1 == ListBytes(BalanceBytes, result) + reader.Rest()
    {
      ghost var before := reader.Rest();
      var entry := ReadBalance(reader);
      if entry.Err? {
        NoLaterEntry(BalanceOk, BalanceBytes, count.value, result, before);
        return Err;
      }
      ListGrows(BalanceBytes, result, entry.value, reader.Rest());
      result := result + [entry.value];
    }
    r := Ok(result);
    Assoc(LE(8, count.value), ListBytes(BalanceBytes, result), reader.Rest());
  }

  method ReadDedups(reader: Reader) returns (r: Result<seq<DedupEntry>>)
    requires reader.Valid()
    modifies reader`cursor
    ensures reader.Valid()
    ensures r.Ok? ==> ListFits(DedupOk, r.value) && old(reader.Rest()) == CountedList(DedupBytes, r.value) + reader.Rest()
    ensures r.Err? ==> NoList(DedupOk, DedupBytes, old(reader.Rest()))
  {
    hide LE, FromLE, NoEntry, NoList, DedupBytes, PrefixFree;
    DedupsArePrefixFree();
    ghost var b0 := reader.Rest();
    var count := ReadCount(reader);
    if count.Err? {
      NoCountNoList(DedupOk, DedupBytes, b0);
      return Err;
    }
    ghost var b1 := reader.Rest();
    var result := [];
    for i := 0 to count.value
      invariant reader.Valid() && |result| == i && All(DedupOk, result)
      invariant b1 == ListBytes(DedupBytes, result) + reader.Rest()
    {
      ghost var before := reader.Rest();
      var entry := ReadDedup(reader);
      if entry.Err? {
        NoLaterEntry(DedupOk, DedupBytes, count.value, result, before);
        return Err;
      }
      ListGrows(DedupBytes, result, entry.value, reader.Rest());
      result := result + [entry.value];
    }
    r := Ok(result);
    Assoc(LE(8, count.value), ListBytes(DedupBytes, result), reader.Rest());
  }

  ghost predicate NoSnapshot(b: Bytes) {
    forall s :: Decodable(s) ==> b != Encoded(s)
  }

  lemma EncodedParts(s: Data)
    ensures |Encoded(s)| >= 12 && Encoded(s)[..4] == LE(4, s.version) && Encoded(s)[4..12] == LE(8, s.sequence)
    ensures Encoded(s)[12..] == BehindHeader(s)
  {
    hide LE, BehindHeader;
    var x := LE(8, s.sequence) + BehindHeader(s);
    assert Encoded(s)[4..] == x && x[8..] == BehindHeader(s) && x[..8] == LE(8, s.sequence);
    assert Encoded(s)[4..][8..] == Encoded(s)[12..] && Encoded(s)[4..12] == Encoded(s)[4..][..8];
  }

  lemma NoHeader(b: Bytes)
    requires |b| < 12
    ensures NoSnapshot(b)
  {
    hide Encoded;
    forall s | Decodable(s) ensures b != Encoded(s) { EncodedParts(s); }
  }

  lemma NoBalancesBehind(b: Bytes)
    requires |b| >= 12 && NoList(BalanceOk, BalanceBytes, b[12..])
    ensures NoSnapshot(b)
  {
    hide Encoded, CountedList, EpochBytes;
    forall s | Decodable(s) ensures b != Encoded(s) { EncodedParts(s); }
  }

  lemma NoDedupBehind(b: Bytes, balances: seq<BalanceEntry>, rest: Bytes)
    requires |b| >= 12 && ListFits(BalanceOk, balances) && b[12..] == CountedList(BalanceBytes, balances) + rest
    requires NoList(DedupOk, DedupBytes, rest)
    ensures NoSnapshot(b)
  {
    hide Encoded, CountedList, EpochBytes, PrefixFree, All;
    BalancesArePrefixFree();
    forall s | Decodable(s) ensures b != Encoded(s) {
      EncodedParts(s);
      if b == Encoded(s) {
        CountedListDetermines(BalanceOk, BalanceBytes, balances, rest,
                              s.balances, CountedList(DedupBytes, s.dedup) + EpochBytes(s.version, s.epoch));
      }
    }
  }

  /** The lists were read; what follows them is no epoch of this version. */
  lemma WrongEnd(b: Bytes, version: U32, balances: seq<BalanceEntry>, dedup: seq<DedupEntry>, rest: Bytes)
    requires |b| >= 12 && b[..4] == LE(4, version) && ListFits(BalanceOk, balances) && ListFits(DedupOk, dedup)
    requires b[12..] == CountedList(BalanceBytes, balances) + (CountedList(DedupBytes, dedup) + rest)
    requires |rest| != if version >= 3 then 8 else 0
    ensures NoSnapshot(b)
  {
    hide Encoded, CountedList, PrefixFree, All, LE;
    Widths();
    BalancesArePrefixFree();
    DedupsArePrefixFree();
    forall s | Decodable(s) ensures b != Encoded(s) {
      EncodedParts(s);
      if b == Encoded(s) {
        LERoundTrip(4, version);
        LERoundTrip(4, s.version);
        var end := EpochBytes(s.version, s.epoch);
        CountedListDetermines(BalanceOk, BalanceBytes, balances, CountedList(DedupBytes, dedup) + rest,
                              s.balances, CountedList(DedupBytes, s.dedup) + end);
        CountedListDetermines(DedupOk, DedupBytes, dedup, rest, s.dedup, end);
      }
    }
  }

  /** decode: succeeds on encodings of decodable snapshots and on nothing else. */
  method Decode(payload: Bytes) returns (r: Result<Data>)
    ensures r.Ok? ==> Decodable(r.value) && payload == Encoded(r.value) && LaidOut(payload, r.value)
    ensures r.Ok? ==> |r.value.balances| <= 100_000_000 && |r.value.dedup| <= 100_000_000
                      && (r.value.version < 3 ==> r.value.epoch == 0)
    ensures r.Err? ==> NoSnapshot(payload)
  {
    hide NoSnapshot, NoList, CountedList, LE, FromLE, All, LaidOut;
    Widths();
    var reader := new Reader(payload);
    assert reader.Rest() == payload;
    var version := reader.Number(4);
    if version.Err? {
      NoHeader(payload);
      return Err;
    }
    var sequence := reader.ReadU64();
    if sequence.Err? {
      NoHeader(payload);
      return Err;
    }
    assert payload[..4] == LE(4, version.value) && payload[12..] == reader.Rest();
    var balances := ReadBalances(reader);
    if balances.Err? {
      NoBalancesBehind(payload);
      return Err;
    }
    ghost var rest := reader.Rest();
    var dedup := ReadDedups(reader);
    if dedup.Err? {
      NoDedupBehind(payload, balances.value, rest);
      return Err;
    }
    rest := reader.Rest();
    var epoch: U64 := 0;
    if version.value >= 3 {
      var read := reader.ReadU64();
      if read.Err? {
        WrongEnd(payload, version.value, balances.value, dedup.value, rest);
        return Err;
      }
      epoch := read.value;
    }
    var done := reader.Done();
    if !done {
      WrongEnd(payload, version.value, balances.value, dedup.value, rest);
      return Err;
    }
    r := Ok(Data(version.value, sequence.value, balances.value, dedup.value, epoch));
    assert rest == EpochBytes(version.value, epoch);
    PayloadLayout(r.value);
  }

  // ----- What comes back -----

  ghost function Decoded(payload: Bytes): Result<Data> {
    if exists s :: Decodable(s) && payload == Encoded(s)
    then var s :| Decodable(s) && payload == Encoded(s); Ok(s)
    else Err
  }

  predicate SaneCounts(s: Data) { |s.balances| <= MAX_ITEMS && |s.dedup| <= MAX_ITEMS }

  /** decode(encode(s)) is s without an epoch its version cannot carry, if the counts are
      sane, and an error otherwise. */
  lemma WhatComesBack(s: Data)
    requires Encodable(s)
    ensures Decoded(Encoded(s)) ==
              if |s.balances| > 100_000_000 || |s.dedup| > 100_000_000 then Err
              else Ok(Data(s.version, s.sequence, s.balances, s.dedup, if s.version >= 3 then s.epoch else 0))
  {
    hide CountedList, All, LE;
    assert Encoded(Stored(s)) == Encoded(s);
    assert Encoded(s) + [] == Encoded(s);
    forall other | Decodable(other) && Encoded(s) == Encoded(other) ensures other == Stored(s) && SaneCounts(s) {
      PayloadDetermines(s, [], other, []);
    }
    if SaneCounts(s) { assert Decodable(Stored(s)); }
  }

  /** The round trip is exact precisely for sane counts and no lost epoch. */
  lemma RoundTripIff(s: Data)
    requires Encodable(s)
    ensures Decoded(Encoded(s)) == Ok(s)
            <==> |s.balances| <= 100_000_000 && |s.dedup| <= 100_000_000 && (s.version >= 3 || s.epoch == 0)
  {
    hide Encoded, Decoded;
    WhatComesBack(s);
  }

  // ----- The file -----

  function Framed(magic: Bytes, hash: Hash, payload: Bytes): Bytes {
    magic + (LE(8, |payload|) + (hash(payload) + payload))
  }

  function FileBytes(hash: Hash, payload: Bytes): Bytes { Framed(MAGIC, hash, payload) }

  ghost predicate Loadable(s: Data) {
    Decodable(s) && 1 <= s.version <= 3 && |Encoded(s)| <= MAX_PAYLOAD
  }

  /** How the JSON payload of an old file reads: any function of the bytes. */
  type Legacy = Bytes -> Result<Data>

  ghost predicate IsOld(hash: Hash, legacy: Legacy, file: Bytes, payload: Bytes, s: Data) {
    |payload| <= MAX_PAYLOAD && file == Framed(LEGACY_MAGIC, hash, payload) && legacy(payload) == Ok(s) && 1 <= s.version <= 3
  }

  /** The file is the snapshot `s`, in the current format or in the old one. */
  ghost predicate Loads(hash: Hash, legacy: Legacy, file: Bytes, s: Data) {
    || (Loadable(s) && file == FileBytes(hash, Encoded(s)))
    || exists payload :: IsOld(hash, legacy, file, payload, s)
  }

  lemma FrameParts(magic: Bytes, hash: Hash, payload: Bytes)
    requires |magic| == 8
    ensures var f := Framed(magic, hash, payload);
            && |f| == HEADER_SIZE + |payload| && f[..8] == magic
            && f[16..48] == hash(payload) && f[48..] == payload
            && (|payload| <= MAX_PAYLOAD ==> FromLE(f[8..16]) == |payload|)
  {
    hide LE, FromLE;
    Widths();
    if |payload| <= MAX_PAYLOAD { LERoundTrip(8, |payload|); }
    var f := Framed(magic, hash, payload);
    assert f[8..] == LE(8, |payload|) + (hash(payload) + payload);
    assert f[8..16] == f[8..][..8] && f[16..] == f[8..][8..];
    assert f[16..48] == f[16..][..32] && f[48..] == f[16..][32..];
  }

  lemma FrameOfParts(magic: Bytes, hash: Hash, f: Bytes)
    requires |f| >= HEADER_SIZE && f[..8] == magic && FromLE(f[8..16]) == |f| - HEADER_SIZE && f[16..48] == hash(f[48..])
    ensures f == Framed(magic, hash, f[48..])
  {
    hide LE, FromLE;
    FromLERoundTrip(f[8..16]);
    assert f[16..] == f[16..48] + f[48..];
    assert f[8..] == f[8..16] + f[16..];
    assert f == f[..8] + f[8..];
  }

  /** What any file that loads looks like. */
  lemma LoadedParts(hash: Hash, legacy: Legacy, file: Bytes, s: Data)
    requires Loads(hash, legacy, file, s)
    ensures |file| >= HEADER_SIZE && |file| - HEADER_SIZE <= MAX_PAYLOAD && 1 <= s.version <= 3
    ensures FromLE(file[8..16]) == |file| - HEADER_SIZE && file[16..48] == hash(file[48..])
    ensures || (file[..8] == MAGIC && Decodable(s) && file[48..] == Encoded(s))
            || (file[..8] == LEGACY_MAGIC && legacy(file[48..]) == Ok(s))
  {
    hide LE, FromLE, Encoded, Decodable, Framed;
    if Loadable(s) && file == FileBytes(hash, Encoded(s)) {
      FrameParts(MAGIC, hash, Encoded(s));
    } else {
      var payload :| IsOld(hash, legacy, file, payload, s);
      FrameParts(LEGACY_MAGIC, hash, payload);
    }
  }

  /** What a saved snapshot loads as: itself, without an epoch its version cannot carry; and
      nothing at all with insane counts, an unknown version or a payload over 4 GiB. */
  lemma SavedLoadsIff(hash: Hash, legacy: Legacy, s: Data, t: Data)
    requires Encodable(s)
    ensures Loads(hash, legacy, FileBytes(hash, Encoded(s)), t)
            <==> && t == Data(s.version, s.sequence, s.balances, s.dedup, if s.version == 3 then s.epoch else 0)
                 && |s.balances| <= 100_000_000 && |s.dedup| <= 100_000_000
                 && 1 <= s.version <= 3 && |Encoded(s)| <= 4 * 1024 * 1024 * 1024
  {
    hide LE, FromLE, Encoded, Decodable, Encodable, Framed, Decoded;
    var file := FileBytes(hash, Encoded(s));
    FrameParts(MAGIC, hash, Encoded(s));
    StoredIsSame(s);
    if Loads(hash, legacy, file, t) {
      LoadedParts(hash, legacy, file, t);
      SavedDetermines(s, t);
    }
    if t == Stored(s) && SaneCounts(s) && 1 <= s.version <= 3 && |Encoded(s)| <= MAX_PAYLOAD {
      assert Loadable(t);
    }
  }

  lemma StoredIsSame(s: Data)
    requires Encodable(s)
    ensures Encoded(Stored(s)) == Encoded(s) && Stored(s).version == s.version
    ensures SaneCounts(s) ==> Decodable(Stored(s))
  {
    hide CountedList, All, LE;
  }

  lemma SavedDetermines(s: Data, t: Data)
    requires Encodable(s) && Decodable(t) && Encoded(t) == Encoded(s)
    ensures t == Stored(s) && SaneCounts(s)
  {
    hide Encoded, LE;
    assert Encoded(s) + [] == Encoded(t) + [];
    PayloadDetermines(s, [], t, []);
  }

  /** Magic, payload length, digest of the payload, payload. */
  ghost predicate FileIs(hash: Hash, magic: Bytes, f: Bytes) {
    && |f| >= 48 && f[..8] == magic && f[16..48] == hash(f[48..])
    && (|f| - 48 <= 0xFFFF_FFFF_FFFF_FFFF ==> Number8(f, 8) == |f| - 48)
  }

  lemma FramedIsFile(magic: Bytes, hash: Hash, payload: Bytes)
    requires |magic| == 8
    ensures FileIs(hash, magic, Framed(magic, hash, payload)) && Framed(magic, hash, payload)[48..] == payload
  {
    hide LE, Number8;
    FrameParts(magic, hash, payload);
    if |payload| <= MAX_U64 { NumberOf8(magic, |payload|, hash(payload) + payload); }
  }

  /** Every file that loads, byte by byte. */
  lemma LoadedLayout(hash: Hash, legacy: Legacy, file: Bytes, s: Data)
    requires Loads(hash, legacy, file, s)
    ensures |file| >= 48 && |file| - 48 <= 4 * 1024 * 1024 * 1024 && 1 <= s.version <= 3
    ensures || (&& FileIs(hash, [0x57, 0x48, 0x53, 0x4E, 0x41, 0x50, 0x30, 0x32], file) && LaidOut(file[48..], s)
                && |s.balances| <= 100_000_000 && |s.dedup| <= 100_000_000 && (s.version < 3 ==> s.epoch == 0))
            || (FileIs(hash, [0x57, 0x48, 0x53, 0x4E, 0x41, 0x50, 0x30, 0x31], file) && legacy(file[48..]) == Ok(s))
  {
    hide LE, FromLE, Number8, Encoded, Framed, FileIs, LaidOut;
    LoadedParts(hash, legacy, file, s);
    if Loadable(s) && file == FileBytes(hash, Encoded(s)) {
      FramedIsFile(MAGIC, hash, Encoded(s));
      PayloadLayout(s);
    } else {
      var payload :| IsOld(hash, legacy, file, payload, s);
      FramedIsFile(LEGACY_MAGIC, hash, payload);
    }
  }

  /** What the file system does to one save: whether it opens the temporary file, how many
      bytes fit, whether it syncs and renames. */
  datatype Fate = Fate(opens: bool, room: nat, syncs: bool, renames: bool)

  predicate IsPrefix(a: Bytes, b: Bytes) { |a| <= |b| && a == b[..|a|] }

  /** The snapshot path and the temporary file beside it. */
  class SnapshotFile {
    const hash: Hash
    var file: Option<Bytes>
    var temporary: Option<Bytes>

    constructor (hash: Hash, file: Option<Bytes>)
      ensures this.hash == hash && this.file == file && temporary == None
    {
      this.hash, this.file, temporary := hash, file, None;
    }

    /** One write_all to the temporary file. */
    method Write(part: Bytes, room: nat) returns (ok: bool)
      requires temporary.Some?
      modifies this`temporary
      ensures temporary.Some? && IsPrefix(temporary.value, old(temporary.value) + part)
      ensures ok ==> temporary.value == old(temporary.value) + part
      ensures |old(temporary.value)| <= room ==> (ok <==> |old(temporary.value)| + |part| <= room)
    {
      var before := temporary.value;
      ok := |before| + |part| <= room;
      var fits := if ok then |part| else if |before| <= room then room - |before| else 0;
      temporary := Some(before + part[..fits]);
      assert (before + part)[..|before| + fits] == before + part[..fits];
    }

    /** save: the old file stays in place, whole, until the new one is whole and synced. */
    method Save(s: Data, fate: Fate) returns (ok: bool)
      modifies this
      ensures ok <==> && All(BalanceOk, s.balances) && All(DedupOk, s.dedup)
                      && fate.opens && |FileBytes(hash, Encoded(s))| <= fate.room && fate.syncs && fate.renames
      ensures ok ==> file == Some(FileBytes(hash, Encoded(s))) && temporary == None
      ensures ok ==> FileIs(hash, [0x57, 0x48, 0x53, 0x4E, 0x41, 0x50, 0x30, 0x32], file.value)
      ensures ok && |s.balances| <= 0xFFFF_FFFF_FFFF_FFFF && |s.dedup| <= 0xFFFF_FFFF_FFFF_FFFF ==> LaidOut(file.value[48..], s)
      ensures !ok ==> file == old(file)
      ensures !ok && temporary != old(temporary) ==> temporary.Some? && IsPrefix(temporary.value, FileBytes(hash, Encoded(s)))
    {
      hide Encoded, LE, All, IsPrefix, Framed, FileIs, LaidOut;
      var encoded := Encode(s);
      if encoded.Err? || !fate.opens { return false; }
      var payload := encoded.value;
      FramedIsFile(MAGIC, hash, payload);
      WholeFile(hash, payload);
      temporary := Some([]);
      ok := WriteParts(payload, fate.room);
      if ok && fate.syncs && fate.renames {
        file, temporary := temporary, None;
      } else {
        ok := false;
      }
    }

    /** The four parts one after another, up to the first that fails. */
    method WriteParts(payload: Bytes, room: nat) returns (ok: bool)
      requires temporary == Some([])
      modifies this`temporary
      ensures temporary.Some? && IsPrefix(temporary.value, FileBytes(hash, payload))
      ensures ok <==> |FileBytes(hash, payload)| <= room
      ensures ok ==> temporary.value == FileBytes(hash, payload)
    {
      hide LE, Framed;
      WholeFile(hash, payload);
      var parts := [MAGIC, LE(8, |payload|), hash(payload), payload];
      ok := true;
      for i := 0 to 4
        invariant ok && temporary == Some(Concat(parts, i)) && |Concat(parts, i)| <= room
      {
        ConcatIsPrefix(parts, i + 1);
        ok := Write(parts[i], room);
        if !ok {
          PrefixOfPrefix(temporary.value, Concat(parts, i + 1), Concat(parts, 4));
          return;
        }
      }
    }

    /** load: a torn, padded or altered file is refused, and so is an unknown version. */
    method Load(legacy: Legacy) returns (r: Result<Option<Data>>)
      ensures file.None? ==> r == Ok(None)
      ensures file.Some? && r.Ok? ==> r.value.Some? && Loads(hash, legacy, file.value, r.value.value)
      ensures file.Some? && r.Ok? ==>
                var f, s := file.value, r.value.value;
                && |f| >= 48 && |f| - 48 <= 4 * 1024 * 1024 * 1024 && 1 <= s.version <= 3
                && (|| (FileIs(hash, [0x57, 0x48, 0x53, 0x4E, 0x41, 0x50, 0x30, 0x32], f) && LaidOut(f[48..], s))
                    || (FileIs(hash, [0x57, 0x48, 0x53, 0x4E, 0x41, 0x50, 0x30, 0x31], f) && legacy(f[48..]) == Ok(s)))
      ensures r.Err? ==> file.Some? && forall s :: !Loads(hash, legacy, file.value, s)
    {
      if file.None? { return Ok(None); }
      var parsed := Parse(hash, legacy, file.value);
      hide Loads, FileIs, LaidOut;
      if parsed.Ok? { LoadedLayout(hash, legacy, file.value, parsed.value); }
      r := if parsed.Ok? then Ok(Some(parsed.value)) else Err;
    }
  }

  function Concat(parts: seq<Bytes>, n: nat): Bytes
    requires n <= |parts|
  {
    if n == 0 then [] else Concat(parts, n - 1) + parts[n - 1]
  }

  lemma ConcatIsPrefix(parts: seq<Bytes>, n: nat)
    requires n <= |parts|
    ensures IsPrefix(Concat(parts, n), Concat(parts, |parts|))
    decreases |parts| - n
  {
    if n < |parts| {
      ConcatIsPrefix(parts, n + 1);
      PrefixOfPrefix(Concat(parts, n), Concat(parts, n + 1), Concat(parts, |parts|));
    }
  }

  lemma PrefixOfPrefix(a: Bytes, b: Bytes, c: Bytes)
    requires IsPrefix(a, b) && IsPrefix(b, c)
    ensures IsPrefix(a, c)
  {
    assert c[..|b|][..|a|] == c[..|a|];
  }

  lemma ConcatOfFour(a: Bytes, b: Bytes, c: Bytes, d: Bytes)
    ensures Concat([a, b, c, d], 4) == a + (b + (c + d))
  {
    var parts := [a, b, c, d];
    assert Concat(parts, 1) == [] + a;
    assert Concat(parts, 2) == ([] + a) + b;
    assert Concat(parts, 3) == (([] + a) + b) + c;
    Assoc4(a, b, c, d);
  }

  lemma WholeFile(hash: Hash, payload: Bytes)
    ensures Concat([MAGIC, LE(8, |payload|), hash(payload), payload], 4) == FileBytes(hash, payload)
  {
    var magic, digest: Bytes := MAGIC, hash(payload);
    ConcatOfFour(magic, LE(8, |payload|), digest, payload);
  }

  method Parse(hash: Hash, legacy: Legacy, data: Bytes) returns (r: Result<Data>)
    ensures r.Ok? ==> Loads(hash, legacy, data, r.value)
    ensures r.Err? ==> forall s :: !Loads(hash, legacy, data, s)
  {
    hide LE, FromLE, Encoded, Decodable, Framed, Loads;
    forall s | Loads(hash, legacy, data, s)
      ensures && |data| >= HEADER_SIZE && |data| - HEADER_SIZE <= MAX_PAYLOAD && 1 <= s.version <= 3
              && FromLE(data[8..16]) == |data| - HEADER_SIZE && data[16..48] == hash(data[48..])
              && ((data[..8] == MAGIC && Decodable(s) && data[48..] == Encoded(s))
                  || (data[..8] == LEGACY_MAGIC && legacy(data[48..]) == Ok(s)))
    {
      LoadedParts(hash, legacy, data, s);
    }
    if |data| < HEADER_SIZE || (data[..8] != MAGIC && data[..8] != LEGACY_MAGIC) { return Err; }
    var length := FromLE(data[8..16]);
    if length > MAX_PAYLOAD || |data| != HEADER_SIZE + length { return Err; }
    var payload := data[HEADER_SIZE..];
    if hash(payload) != data[16..48] { return Err; }
    FrameOfParts(data[..8], hash, data);
    var legacyFile := data[..8] == LEGACY_MAGIC;
    if legacyFile { r := legacy(payload); } else { r := Decode(payload); }
    if r.Err? { return; }
    var found := r.value;
    if 1 <= found.version <= 3 {
      LoadsFound(hash, legacy, data, found);
    } else {
      forall s | !legacyFile && Decodable(s) && Encoded(s) == payload ensures s.version == found.version { SameVersion(s, found); }
      r := Err;
    }
  }

  lemma LoadsFound(hash: Hash, legacy: Legacy, data: Bytes, s: Data)
    requires |data| >= HEADER_SIZE && |data| - HEADER_SIZE <= MAX_PAYLOAD && 1 <= s.version <= 3
    requires data == Framed(data[..8], hash, data[48..])
    requires || (data[..8] == MAGIC && Decodable(s) && data[48..] == Encoded(s))
             || (data[..8] == LEGACY_MAGIC && legacy(data[48..]) == Ok(s))
    ensures Loads(hash, legacy, data, s)
  {
    hide Encoded, Decodable, Framed;
    if data[..8] == LEGACY_MAGIC { assert IsOld(hash, legacy, data, data[48..], s); }
  }

  lemma SameVersion(a: Data, b: Data)
    requires Encoded(a) == Encoded(b)
    ensures a.version == b.version
  {
    hide Encoded;
    assert Encoded(a) + [] == Encoded(b) + [];
    HeaderDetermines(a, [], b, []);
  }
}
