/** The operation history in the LSM store (src/dedup_disk.rs): one primary keyspace by
    operation id, two secondary indexes, and the paged reads over them (src/main.rs). */
module History {
  import opened Model
  import opened Bits
  import opened Keyspaces
  import B = Binary

  // ----- Index keys -----

  function IndexPrefix(value: Text): Bytes { value + [0] }

  function IndexKey(value: Text, id: Text): Bytes { IndexPrefix(value) + id }

  lemma FirstNul(a: Bytes, s: Bytes, b: Bytes, t: Bytes)
    requires NulFree(a) && NulFree(b) && (a + [0]) + s == (b + [0]) + t
    ensures a == b && s == t
  {
    assert ((a + [0]) + s)[|a|] == 0 && ((b + [0]) + t)[|b|] == 0;
    assert forall i :: 0 <= i < |a| ==> ((a + [0]) + s)[i] == a[i];
    assert forall i :: 0 <= i < |b| ==> ((b + [0]) + t)[i] == b[i];
    assert |a| == |b|;
    assert ((a + [0]) + s)[..|a|] == a && ((b + [0]) + t)[..|a|] == b;
    assert ((a + [0]) + s)[|a| + 1..] == s && ((b + [0]) + t)[|a| + 1..] == t;
  }

  /** Two index keys are equal only for equal parts: identifiers have no NUL. */
  lemma IndexKeysDiffer(a: Text, s: Text, b: Text, t: Text)
    requires NulFree(a) && NulFree(b) && IndexKey(a, s) == IndexKey(b, t)
    ensures a == b && s == t
  {
    FirstNul(a, s, b, t);
  }

  /** A stored key starts with the prefix of a value, whatever that value is, exactly if
      it is an entry of that value. */
  lemma PrefixMeansValue(value: Text, owner: Text, id: Text)
    requires NulFree(owner) && NulFree(id)
    ensures IndexPrefix(value) <= IndexKey(owner, id) <==> owner == value
  {
    var key := IndexKey(owner, id);
    assert forall i :: 0 <= i < |key| && i != |owner| ==> key[i] != 0;
    assert key[..|owner|] == owner;
    if IndexPrefix(value) <= key {
      assert key[|value|] == 0;
      assert key[..|value|] == value;
    }
  }

  /** The range [prefix, prefix 0xFF) of an index holds exactly the entries of the value:
      it rests on NUL-free identifiers and on 0xFF never occurring in UTF-8. */
  lemma RangeIsExact(value: Text, owner: Text, id: Text)
    requires NulFree(owner) && NulFree(id)
    ensures !Less(IndexKey(owner, id), IndexPrefix(value)) && Less(IndexKey(owner, id), IndexPrefix(value) + [0xFF])
            <==> owner == value
  {
    hide Less;
    PrefixRange(IndexPrefix(value), IndexKey(owner, id));
    PrefixMeansValue(value, owner, id);
    if owner == value && id != [] {
      Utf8StaysBelowFF(id, 0);
      assert IndexKey(owner, id)[|IndexPrefix(value)|] == id[0];
    }
  }

  // ----- The tables -----

  type Table = map<Text, Operation>

  function Materialized(t: Table, ops: seq<Operation>): Table {
    if ops == [] then t else Materialized(t, ops[..|ops| - 1])[ops[|ops| - 1].id := ops[|ops| - 1]]
  }

  ghost predicate TableOk(t: Table) {
    forall id :: id in t ==> t[id].id == id && Validates(t[id])
  }

  predicate Row(t: Table, p: Pair) {
    Utf8(p.key) && p.key in t && p.value == B.EncodedOperation(t[p.key])
  }

  /** The primary keyspace stores the encodings of the table. */
  ghost predicate PrimaryOk(history: Keyspace, t: Table) {
    Sorted(history) && forall p :: p in history <==> Row(t, p)
  }

  /** Which field an index is over. */
  datatype Field = Owner | Sku

  function Of(f: Field, op: Operation): Text {
    match f case Owner => op.owner case Sku => op.sku
  }

  ghost predicate Indexed(t: Table, f: Field, p: Pair) {
    exists id :: id in t && p == Pair(IndexKey(Of(f, t[id]), id), id)
  }

  /** An index lists each row of the table once and nothing else. */
  ghost predicate IndexOk(index: Keyspace, t: Table, f: Field) {
    Sorted(index) && forall p :: p in index <==> Indexed(t, f, p)
  }

  lemma ValidatedIsEncodable(op: Operation)
    requires Validates(op)
    ensures B.Encodable(op) && NulFree(op.id) && NulFree(op.owner) && NulFree(op.sku)
  {
    ValidIdentifiersAreNulFree(op.id);
    ValidIdentifiersAreNulFree(op.owner);
    ValidIdentifiersAreNulFree(op.sku);
  }

  lemma PrimaryAfterPut(history: Keyspace, t: Table, op: Operation)
    requires PrimaryOk(history, t)
    ensures PrimaryOk(Put(history, op.id, B.EncodedOperation(op)), t[op.id := op])
  {
    hide Sorted, Get, Put, B.EncodedOperation;
    var value := B.EncodedOperation(op);
    var after := Put(history, op.id, value);
    PutStaysSorted(history, op.id, value);
    forall p ensures p in after <==> Row(t[op.id := op], p) {
      GetMeansMember(after, p);
      GetMeansMember(history, p);
      GetAfterPut(history, op.id, value, p.key);
    }
  }

  /** Writing an operation keeps an index exact unless the id was there under another
      value of the field. */
  lemma IndexAfterPut(index: Keyspace, t: Table, f: Field, op: Operation)
    requires IndexOk(index, t, f) && TableOk(t) && Validates(op)
    requires op.id in t ==> Of(f, t[op.id]) == Of(f, op)
    ensures IndexOk(Put(index, IndexKey(Of(f, op), op.id), op.id), t[op.id := op], f)
  {
    hide Sorted, Get, Put, IndexKey, Validates;
    var key := IndexKey(Of(f, op), op.id);
    var after, t' := Put(index, key, op.id), t[op.id := op];
    PutStaysSorted(index, key, op.id);
    forall p ensures p in after <==> Indexed(t', f, p) {
      GetMeansMember(after, p);
      GetMeansMember(index, p);
      GetAfterPut(index, key, op.id, p.key);
      IndexedAfterPut(t, f, op, p);
    }
  }

  lemma IndexedAfterPut(t: Table, f: Field, op: Operation, p: Pair)
    requires TableOk(t) && Validates(op)
    requires op.id in t ==> Of(f, t[op.id]) == Of(f, op)
    ensures Indexed(t[op.id := op], f, p)
            <==> if p.key == IndexKey(Of(f, op), op.id) then p.value == op.id else Indexed(t, f, p)
  {
    hide IndexKey, Validates;
    var t' := t[op.id := op];
    var key := IndexKey(Of(f, op), op.id);
    if p.key == key && p.value == op.id {
      assert op.id in t';
    }
    if Indexed(t', f, p) {
      var id :| id in t' && p == Pair(IndexKey(Of(f, t'[id]), id), id);
      if id != op.id {
        assert id in t && t'[id] == t[id];
        ValidatedIsEncodable(t[id]);
        ValidatedIsEncodable(op);
        if p.key == key { IndexKeysDiffer(Of(f, t[id]), id, Of(f, op), op.id); }
      }
    }
    if Indexed(t, f, p) && p.key != key {
      var id :| id in t && p == Pair(IndexKey(Of(f, t[id]), id), id);
      assert id != op.id;
      assert id in t' && t'[id] == t[id];
    }
  }

  /** ... and then it is exact only if the field did not change: a changed one leaves a
      stale entry behind. */
  lemma IndexStaysExactIff(index: Keyspace, t: Table, f: Field, op: Operation)
    requires IndexOk(index, t, f) && TableOk(t) && Validates(op)
    ensures IndexOk(Put(index, IndexKey(Of(f, op), op.id), op.id), t[op.id := op], f)
            <==> (op.id in t ==> Of(f, t[op.id]) == Of(f, op))
  {
    hide Sorted, Get, Put, IndexKey, Validates, IndexOk;
    if op.id in t && Of(f, t[op.id]) != Of(f, op) {
      var key := IndexKey(Of(f, op), op.id);
      StaleEntryStays(index, t, f, op);
    } else {
      IndexAfterPut(index, t, f, op);
    }
  }

  lemma StaleEntryStays(index: Keyspace, t: Table, f: Field, op: Operation)
    requires IndexOk(index, t, f) && TableOk(t) && Validates(op)
    requires op.id in t && Of(f, t[op.id]) != Of(f, op)
    ensures !IndexOk(Put(index, IndexKey(Of(f, op), op.id), op.id), t[op.id := op], f)
  {
    hide Get, Put, IndexKey, Validates, Sorted;
    var key := IndexKey(Of(f, op), op.id);
    var after, t' := Put(index, key, op.id), t[op.id := op];
    var stale := Pair(IndexKey(Of(f, t[op.id]), op.id), op.id);
    assert stale in index by { assert Indexed(t, f, stale); }
    ValidatedIsEncodable(op);
    ValidatedIsEncodable(t[op.id]);
    if stale.key == key { IndexKeysDiffer(Of(f, t[op.id]), op.id, Of(f, op), op.id); }
    GetMeansMember(index, stale);
    GetAfterPut(index, key, op.id, stale.key);
    PutStaysSorted(index, key, op.id);
    GetMeansMember(after, stale);
    assert forall id :: id in t' ==> stale != Pair(IndexKey(Of(f, t'[id]), id), id);
  }

  /** Rewriting what is already there changes nothing: replaying a materialized batch is
      harmless while ids are consistent. */
  lemma {:induction false} MaterializingAgain(t: Table, ops: seq<Operation>)
    requires forall op :: op in ops ==> op.id in t && t[op.id] == op
    ensures Materialized(t, ops) == t
  {
    if ops != [] {
      MaterializingAgain(t, ops[..|ops| - 1]);
      assert ops[|ops| - 1] in ops;
    }
  }

  lemma {:induction false} MaterializedConcat(t: Table, a: seq<Operation>, b: seq<Operation>)
    ensures Materialized(t, a + b) == Materialized(Materialized(t, a), b)
  {
    if b == [] {
      assert a + b == a;
    } else {
      assert (a + b)[..|a + b| - 1] == a + b[..|b| - 1];
      MaterializedConcat(t, a, b[..|b| - 1]);
    }
  }

  lemma {:induction false} OtherIdsStay(t: Table, ops: seq<Operation>, id: Text)
    requires forall i :: 0 <= i < |ops| ==> ops[i].id != id
    ensures id in Materialized(t, ops) <==> id in t
    ensures id in t ==> Materialized(t, ops)[id] == t[id]
  {
    hide Utf8;
    if ops != [] {
      assert forall i :: 0 <= i < |ops| - 1 ==> ops[..|ops| - 1][i] == ops[i];
      OtherIdsStay(t, ops[..|ops| - 1], id);
    }
  }

  /** The last operation of an id is what the table holds. */
  lemma {:induction false} LastWriteWins(t: Table, ops: seq<Operation>, i: nat)
    requires i < |ops| && forall j :: i < j < |ops| ==> ops[j].id != ops[i].id
    ensures ops[i].id in Materialized(t, ops) && Materialized(t, ops)[ops[i].id] == ops[i]
  {
    hide Utf8;
    var m := |ops| - 1;
    if i < m {
      assert ops[..m][i] == ops[i] && forall j :: i < j < m ==> ops[..m][j] == ops[j];
      LastWriteWins(t, ops[..m], i);
    }
  }

  /** No id of the table or of the operations stands for two contents. */
  ghost predicate ConsistentWith(t: Table, ops: seq<Operation>) {
    ConsistentIds(ops) && forall op :: op in ops && op.id in t ==> t[op.id] == op
  }

  /** Under consistent ids the table holds exactly what was there and what was written. */
  lemma {:induction false} MaterializedHolds(t: Table, ops: seq<Operation>, id: Text)
    requires ConsistentWith(t, ops)
    ensures id in Materialized(t, ops) <==> id in t || HasId(ops, id)
    ensures id in t ==> Materialized(t, ops)[id] == t[id]
    ensures id in Materialized(t, ops) && id !in t ==> Materialized(t, ops)[id] in ops && Materialized(t, ops)[id].id == id
  {
    if ops != [] {
      var m := |ops| - 1;
      var last, before := ops[m], ops[..m];
      assert ops == before + [last];
      assert last in ops && forall op :: op in before ==> op in ops;
      MaterializedHolds(t, before, id);
      HasIdOfOneMore(before, last, id);
    }
  }

  lemma MaterializedKeeps(t: Table, ops: seq<Operation>, op: Operation)
    requires ConsistentWith(t, ops) && op in ops && TableOk(t)
    ensures op.id in Materialized(t, ops) && Materialized(t, ops)[op.id] == op
  {
    hide Validates;
    MaterializedHolds(t, ops, op.id);
    var i :| 0 <= i < |ops| && ops[i] == op;
    assert HasId(ops, op.id);
  }

  // ----- Listings: what a read is measured against -----

  ghost predicate Ascending(ops: seq<Operation>) {
    forall i, j :: 0 <= i < j < |ops| ==> Less(ops[i].id, ops[j].id)
  }

  /** The plain filter over the table, in id order. */
  ghost predicate Lists(r: seq<Operation>, t: Table, want: Operation -> bool) {
    Ascending(r) && forall op :: op in r <==> op.id in t && t[op.id] == op && want(op)
  }

  lemma {:induction false} AscendingIsUnique(a: seq<Operation>, b: seq<Operation>)
    requires Ascending(a) && Ascending(b) && forall op :: op in a <==> op in b
    ensures a == b
    decreases |a|
  {
    assert |b| > 0 ==> b[0] in b;
    if a != [] {
      assert a[0] in a;
      var m, n := |a| - 1, |b| - 1;
      LastIsGreatest(a, b);
      forall op ensures op in a[..m] <==> op in b[..n] {
        InitMembers(a, op);
        InitMembers(b, op);
      }
      AscendingIsUnique(a[..m], b[..n]);
      assert a == a[..m] + [a[m]] && b == b[..n] + [b[n]];
    }
  }

  lemma LastIsGreatest(a: seq<Operation>, b: seq<Operation>)
    requires Ascending(a) && Ascending(b) && a != [] && b != [] && forall op :: op in a <==> op in b
    ensures a[|a| - 1] == b[|b| - 1]
  {
    hide Less;
    var x, y := a[|a| - 1], b[|b| - 1];
    assert x in b && y in a;
    var i :| 0 <= i < |b| && b[i] == x;
    var j :| 0 <= j < |a| && a[j] == y;
    if i < |b| - 1 && j < |a| - 1 { LessIsAsymmetric(x.id, y.id); }
  }

  lemma InitMembers(a: seq<Operation>, op: Operation)
    requires Ascending(a) && a != []
    ensures op in a[..|a| - 1] <==> op in a && op != a[|a| - 1]
  {
    var m := |a| - 1;
    assert a == a[..m] + [a[m]];
    if op in a[..m] {
      var i :| 0 <= i < m && a[..m][i] == op;
      assert Less(a[i].id, a[m].id);
      LessIsIrreflexive(a[m].id);
    }
  }

  /** A listing is unique: it does not depend on how it was computed. */
  lemma ListingIsUnique(a: seq<Operation>, b: seq<Operation>, t: Table, want: Operation -> bool)
    requires Lists(a, t, want) && Lists(b, t, want)
    ensures a == b
  {
    AscendingIsUnique(a, b);
  }

  predicate After(cursor: Option<Text>, id: Text) {
    cursor.Some? ==> Less(cursor.value, id)
  }

  function Everything(): Operation -> bool { op => true }

  function WithValue(f: Field, value: Text): Operation -> bool { op => Of(f, op) == value }

  function Beyond(want: Operation -> bool, cursor: Option<Text>): Operation -> bool {
    op => want(op) && After(cursor, op.id)
  }

  function Take<T>(xs: seq<T>, n: nat): seq<T> { if n <= |xs| then xs[..n] else xs }

  lemma FilterLists(rows: seq<Operation>, t: Table, all: Operation -> bool, want: Operation -> bool)
    requires Lists(rows, t, all) && forall op :: want(op) ==> all(op)
    ensures Lists(Filter(rows, want), t, want)
  {
    hide Less;
    var at := FilterKeepsOrder(rows, want);
    forall op { FilterMembers(rows, want, op); }
  }

  lemma {:induction false} FilterFilter(ops: seq<Operation>, want: Operation -> bool, cursor: Option<Text>)
    ensures Filter(Filter(ops, want), Beyond(Everything(), cursor)) == Filter(ops, Beyond(want, cursor))
  {
    if ops != [] {
      var m := |ops| - 1;
      FilterFilter(ops[..m], want, cursor);
      var before := Filter(ops[..m], want);
      assert (before + [ops[m]])[..|before|] == before;
      assert before + [] == before;
    }
  }

  /** What a page is: the first rows behind the cursor that are wanted, in id order, and all
      of them unless the page is full. */
  lemma TakenIsPage(rows: seq<Operation>, want: Operation -> bool, cursor: Option<Text>, limit: nat)
    requires Ascending(rows)
    ensures var page := Take(Remaining(rows, want, cursor), limit);
            && |page| <= limit && Ascending(page)
            && (forall op :: op in page ==> op in rows && want(op) && (cursor.Some? ==> Less(cursor.value, op.id)))
            && forall op :: op in rows && want(op) && (cursor.Some? ==> Less(cursor.value, op.id)) && op !in page ==>
                 |page| == limit && forall x :: x in page ==> Less(x.id, op.id)
  {
    hide Less;
    var rest := Remaining(rows, want, cursor);
    var page := Take(rest, limit);
    var at := FilterKeepsOrder(rows, Beyond(want, cursor));
    forall op ensures op in rest <==> op in rows && Beyond(want, cursor)(op) {
      FilterMembers(rows, Beyond(want, cursor), op);
    }
    forall op | op in page ensures op in rest {
      var i :| 0 <= i < |page| && page[i] == op;
      assert rest[i] == op;
    }
    forall op | op in rest && op !in page ensures |page| == limit && forall x :: x in page ==> Less(x.id, op.id) {
      TakenFirst(rest, limit, op);
    }
  }

  lemma TakenFirst(ops: seq<Operation>, limit: nat, op: Operation)
    requires Ascending(ops) && op in ops && op !in Take(ops, limit)
    ensures |Take(ops, limit)| == limit && forall x :: x in Take(ops, limit) ==> Less(x.id, op.id)
  {
    hide Less;
    var i :| 0 <= i < |ops| && ops[i] == op;
    assert forall k :: 0 <= k < |Take(ops, limit)| ==> Take(ops, limit)[k] != op;
    forall x | x in Take(ops, limit) ensures Less(x.id, op.id) {
      var j :| 0 <= j < limit && ops[j] == x;
    }
  }

  // ----- Paging -----

  /** history_page over what a read with this cursor and limit returns. */
  function NextCursor(page: seq<Operation>, limit: nat): Option<Text> {
    if |page| == limit && limit > 0 then Some(page[limit - 1].id) else None
  }

  function Remaining(rows: seq<Operation>, want: Operation -> bool, cursor: Option<Text>): seq<Operation> {
    Filter(rows, Beyond(want, cursor))
  }

  /** What is behind the last id of a full page is what the page left over. */
  lemma PageAdvances(rows: seq<Operation>, want: Operation -> bool, cursor: Option<Text>, limit: nat)
    requires Ascending(rows) && 1 <= limit <= |Remaining(rows, want, cursor)|
    ensures var rest := Remaining(rows, want, cursor);
            Remaining(rows, want, Some(rest[limit - 1].id)) == rest[limit..]
  {
    hide Less;
    var rest := Remaining(rows, want, cursor);
    var next := Remaining(rows, want, Some(rest[limit - 1].id));
    var at := FilterKeepsOrder(rows, Beyond(want, cursor));
    var at' := FilterKeepsOrder(rows, Beyond(want, Some(rest[limit - 1].id)));
    forall op ensures op in next <==> op in rest[limit..] {
      FilterMembers(rows, Beyond(want, cursor), op);
      FilterMembers(rows, Beyond(want, Some(rest[limit - 1].id)), op);
      FilterMembers(rows, Beyond(want, cursor), rest[limit - 1]);
      if op in next && cursor.Some? { LessIsTransitive(cursor.value, rest[limit - 1].id, op.id); }
      BehindMembers(rest, limit, op);
    }
    AscendingIsUnique(next, rest[limit..]);
  }

  lemma BehindMembers(ops: seq<Operation>, limit: nat, op: Operation)
    requires Ascending(ops) && 1 <= limit <= |ops|
    ensures op in ops[limit..] <==> op in ops && Less(ops[limit - 1].id, op.id)
  {
    hide Less;
    if op in ops[limit..] {
      var i :| 0 <= i < |ops[limit..]| && ops[limit..][i] == op;
      assert ops[limit + i] == op;
    }
    if op in ops && Less(ops[limit - 1].id, op.id) {
      var i :| 0 <= i < |ops| && ops[i] == op;
      if i < limit - 1 { LessIsAsymmetric(ops[i].id, ops[limit - 1].id); }
      if i == limit - 1 { LessIsIrreflexive(op.id); }
      assert ops[limit..][i - limit] == op;
    }
  }

  /** The pages a client sees that starts at `cursor` and follows next_cursor until it is
      absent. */
  function Pages(rows: seq<Operation>, want: Operation -> bool, cursor: Option<Text>, limit: nat): seq<seq<Operation>>
    requires Ascending(rows) && limit >= 1
    decreases |Remaining(rows, want, cursor)|
  {
    var page := Take(Remaining(rows, want, cursor), limit);
    if NextCursor(page, limit).Some? then
      PageAdvances(rows, want, cursor, limit);
      [page] + Pages(rows, want, NextCursor(page, limit), limit)
    else [page]
  }

  function Joined(pages: seq<seq<Operation>>): seq<Operation> {
    if pages == [] then [] else pages[0] + Joined(pages[1..])
  }

  lemma {:induction false} PagesJoin(rows: seq<Operation>, want: Operation -> bool, cursor: Option<Text>, limit: nat)
    requires Ascending(rows) && limit >= 1
    ensures Joined(Pages(rows, want, cursor, limit)) == Remaining(rows, want, cursor)
    decreases |Remaining(rows, want, cursor)|
  {
    hide Less, Remaining;
    var rest := Remaining(rows, want, cursor);
    var page := Take(rest, limit);
    if |rest| >= limit {
      PageAdvances(rows, want, cursor, limit);
      PagesJoin(rows, want, NextCursor(page, limit), limit);
      var more := Pages(rows, want, NextCursor(page, limit), limit);
      assert ([page] + more)[1..] == more;
      assert rest == rest[..limit] + rest[limit..];
    } else {
      assert Joined([page][1..]) == [];
      assert page + [] == page;
    }
  }

  lemma {:induction false} PageCount(rows: seq<Operation>, want: Operation -> bool, cursor: Option<Text>, limit: nat)
    requires Ascending(rows) && limit >= 1
    ensures |Pages(rows, want, cursor, limit)| == |Remaining(rows, want, cursor)| / limit + 1
    decreases |Remaining(rows, want, cursor)|
  {
    hide Less, Remaining;
    var rest := Remaining(rows, want, cursor);
    if |rest| >= limit {
      var page := Take(rest, limit);
      PageAdvances(rows, want, cursor, limit);
      PageCount(rows, want, NextCursor(page, limit), limit);
      OneMoreQuotient(|rest|, limit);
    }
  }

  /** Paging is complete: for any limit, following the cursor terminates after
      |matches| / limit + 1 pages and lists exactly the matching rows, each once, in
      strictly ascending id order. */
  lemma PagingIsComplete(rows: seq<Operation>, t: Table, want: Operation -> bool, limit: nat)
    requires Lists(rows, t, Everything()) && limit >= 1
    ensures Lists(Joined(Pages(rows, want, None, limit)), t, want)
    ensures |Pages(rows, want, None, limit)| == |Filter(rows, want)| / limit + 1
  {
    PagesJoin(rows, want, None, limit);
    PageCount(rows, want, None, limit);
    FilterLists(rows, t, Everything(), want);
    FilterLists(rows, t, Everything(), Beyond(want, None));
    ListingIsUnique(Filter(rows, want), Filter(rows, Beyond(want, None)), t, want);
  }

  // ----- The store -----

  /** One entry of a history batch: sequence, epoch, operations. */
  datatype Entry = Entry(sequence: nat, epoch: U64, operations: seq<Operation>)

  function AllOperations(entries: seq<Entry>): seq<Operation> {
    if entries == [] then [] else AllOperations(entries[..|entries| - 1]) + entries[|entries| - 1].operations
  }

  /** No operation behind the `k`-th one of entry `e` has its id. */
  ghost predicate LastOfId(entries: seq<Entry>, e: nat, k: nat)
    requires e < |entries| && k < |entries[e].operations|
  {
    forall e', k' :: e <= e' < |entries| && 0 <= k' < |entries[e'].operations| && (e < e' || k < k') ==>
      entries[e'].operations[k'].id != entries[e].operations[k].id
  }

  ghost predicate Mentions(entries: seq<Entry>, id: Text) {
    exists e, k :: 0 <= e < |entries| && 0 <= k < |entries[e].operations| && entries[e].operations[k].id == id
  }

  lemma {:induction false} UnmentionedStays(t: Table, entries: seq<Entry>, id: Text)
    requires forall e, k :: 0 <= e < |entries| && 0 <= k < |entries[e].operations| ==> entries[e].operations[k].id != id
    ensures var after := Materialized(t, AllOperations(entries)); (id in after <==> id in t) && (id in t ==> after[id] == t[id])
  {
    hide Utf8, Materialized;
    if entries != [] {
      var m := |entries| - 1;
      UnmentionedStays(t, entries[..m], id);
      MaterializedConcat(t, AllOperations(entries[..m]), entries[m].operations);
      OtherIdsStay(Materialized(t, AllOperations(entries[..m])), entries[m].operations, id);
    } else {
      NothingWritten(t);
    }
  }

  lemma NothingWritten(t: Table)
    ensures Materialized(t, []) == t
  {
  }

  lemma {:induction false} LastMentionWins(t: Table, entries: seq<Entry>, e: nat, k: nat)
    requires e < |entries| && k < |entries[e].operations|
    requires forall e', k' :: e <= e' < |entries| && 0 <= k' < |entries[e'].operations| && (e < e' || k < k') ==>
               entries[e'].operations[k'].id != entries[e].operations[k].id
    ensures var op := entries[e].operations[k]; var after := Materialized(t, AllOperations(entries));
            op.id in after && after[op.id] == op
  {
    hide Utf8, Materialized;
    var m := |entries| - 1;
    MaterializedConcat(t, AllOperations(entries[..m]), entries[m].operations);
    if e < m {
      LastOfBefore(entries, e, k);
      LastMentionWins(t, entries[..m], e, k);
      OtherIdsStay(Materialized(t, AllOperations(entries[..m])), entries[m].operations, entries[e].operations[k].id);
    } else {
      LastWriteWins(Materialized(t, AllOperations(entries[..m])), entries[m].operations, k);
    }
  }

  lemma LastOfBefore(entries: seq<Entry>, e: nat, k: nat)
    requires e < |entries| - 1 && k < |entries[e].operations| && LastOfId(entries, e, k)
    ensures LastOfId(entries[..|entries| - 1], e, k)
    ensures var last := entries[|entries| - 1].operations;
            forall j :: 0 <= j < |last| ==> last[j].id != entries[e].operations[k].id
  {
  }

  function RowsOf(history: Keyspace, t: Table): (r: seq<Operation>)
    requires PrimaryOk(history, t)
    ensures |r| == |history|
  {
    seq(|history|, i requires 0 <= i < |history| => RowAt(history, t, i))
  }

  function RowAt(history: Keyspace, t: Table, i: nat): Operation
    requires PrimaryOk(history, t) && i < |history|
  {
    assert history[i] in history;
    t[history[i].key]
  }

  lemma RowsList(history: Keyspace, t: Table)
    requires PrimaryOk(history, t) && TableOk(t)
    ensures Lists(RowsOf(history, t), t, Everything())
  {
    hide Less, Validates, B.EncodedOperation;
    var rows := RowsOf(history, t);
    forall i | 0 <= i < |rows| ensures rows[i].id == history[i].key && rows[i].id in t && t[rows[i].id] == rows[i] {
      assert history[i] in history;
    }
    forall op ensures op in rows <==> op.id in t && t[op.id] == op {
      if op.id in t && t[op.id] == op {
        var p := Pair(op.id, B.EncodedOperation(op));
        assert Row(t, p);
        var i :| 0 <= i < |history| && history[i] == p;
        assert rows[i] == op;
      }
    }
  }

  // ----- The entries of one value are its rows -----

  function Entries(index: Keyspace, value: Text): Keyspace {
    Range(index, IndexPrefix(value), Some(IndexPrefix(value) + [0xFF]))
  }

  /** An index entry of `value` points at a row with that value. */
  ghost predicate PointsAt(t: Table, f: Field, value: Text, p: Pair) {
    Utf8(p.value) && p.value in t && Of(f, t[p.value]) == value && p.key == IndexKey(value, p.value)
  }

  lemma EntriesPoint(index: Keyspace, t: Table, f: Field, value: Text, p: Pair)
    requires IndexOk(index, t, f) && TableOk(t)
    ensures p in Entries(index, value) <==> PointsAt(t, f, value, p)
  {
    hide Less, IndexKey, IndexPrefix, Validates, Sorted;
    FilterMembers(index, InRange(IndexPrefix(value), Some(IndexPrefix(value) + [0xFF])), p);
    assert p in index <==> Indexed(t, f, p);
    if Indexed(t, f, p) {
      var id :| id in t && p == Pair(IndexKey(Of(f, t[id]), id), id);
      ValidatedIsEncodable(t[id]);
      RangeIsExact(value, Of(f, t[id]), id);
    }
  }

  function EntryRow(t: Table, f: Field, value: Text, p: Pair): Operation
    requires PointsAt(t, f, value, p)
  {
    t[p.value]
  }

  lemma EntriesAreRows(index: Keyspace, history: Keyspace, t: Table, f: Field, value: Text)
    requires IndexOk(index, t, f) && TableOk(t) && PrimaryOk(history, t)
    ensures var entries := Entries(index, value);
            && (forall i :: 0 <= i < |entries| ==> PointsAt(t, f, value, entries[i]))
            && |Filter(RowsOf(history, t), WithValue(f, value))| == |entries|
            && forall i :: 0 <= i < |entries| ==>
                 Filter(RowsOf(history, t), WithValue(f, value))[i] == EntryRow(t, f, value, entries[i])
  {
    hide Less, IndexKey, IndexPrefix, Validates, PrimaryOk;
    var entries := Entries(index, value);
    forall i | 0 <= i < |entries| ensures PointsAt(t, f, value, entries[i]) {
      EntriesPoint(index, t, f, value, entries[i]);
    }
    var ops := seq(|entries|, i requires 0 <= i < |entries| => EntryRow(t, f, value, entries[i]));
    EntriesAscend(index, t, f, value);
    forall op ensures op in ops <==> op.id in t && t[op.id] == op && WithValue(f, value)(op) {
      if op.id in t && t[op.id] == op && Of(f, op) == value {
        var p := Pair(IndexKey(value, op.id), op.id);
        EntriesPoint(index, t, f, value, p);
        var i :| 0 <= i < |entries| && entries[i] == p;
        assert ops[i] == op;
      }
    }
    RowsList(history, t);
    FilterLists(RowsOf(history, t), t, Everything(), WithValue(f, value));
    ListingIsUnique(ops, Filter(RowsOf(history, t), WithValue(f, value)), t, WithValue(f, value));
  }

  lemma EntriesAscend(index: Keyspace, t: Table, f: Field, value: Text)
    requires IndexOk(index, t, f) && TableOk(t)
    requires var entries := Entries(index, value); forall i :: 0 <= i < |entries| ==> PointsAt(t, f, value, entries[i])
    ensures var entries := Entries(index, value); forall i, j :: 0 <= i < j < |entries| ==>
              Less(entries[i].value, entries[j].value)
  {
    hide Less, IndexPrefix, Validates;
    var entries := Entries(index, value);
    RangeAscends(index, IndexPrefix(value), Some(IndexPrefix(value) + [0xFF]));
    forall i, j | 0 <= i < j < |entries| ensures Less(entries[i].value, entries[j].value) {
      LessBehind(IndexPrefix(value), entries[i].value, entries[j].value);
    }
  }

  lemma FilterOfTwoParts<T>(xs: seq<T>, n: nat, want: T -> bool)
    requires n <= |xs|
    ensures Filter(xs, want) == Filter(xs[..n], want) + Filter(xs[n..], want)
  {
    assert xs == xs[..n] + xs[n..];
    FilterOfConcat(xs[..n], xs[n..], want);
  }

  // ----- The entries a scan walks over -----

  function RowOf(t: Table, p: Pair): Operation
    requires Row(t, p)
  {
    t[p.key]
  }

  function NotBelow(start: Text): Operation -> bool { (op: Operation) => !Less(op.id, start) }

  lemma ScanWalks(history: Keyspace, t: Table, start: Text) returns (ops: seq<Operation>)
    requires TableOk(t) && PrimaryOk(history, t)
    ensures var entries := Range(history, start, None);
            && |ops| == |entries|
            && (forall i :: 0 <= i < |entries| ==> Row(t, entries[i]) && ops[i] == RowOf(t, entries[i]) && ops[i].id == entries[i].key)
    ensures Lists(ops, t, NotBelow(start))
  {
    hide Less, Validates, B.EncodedOperation;
    var entries := Range(history, start, None);
    forall i | 0 <= i < |entries| ensures Row(t, entries[i]) {
      FilterMembers(history, InRange(start, None), entries[i]);
    }
    ops := seq(|entries|, i requires 0 <= i < |entries| => RowOf(t, entries[i]));
    RangeAscends(history, start, None);
    forall op ensures op in ops <==> op.id in t && t[op.id] == op && !Less(op.id, start) {
      var p := Pair(op.id, B.EncodedOperation(op));
      FilterMembers(history, InRange(start, None), p);
      if op.id in t && t[op.id] == op && !Less(op.id, start) {
        assert Row(t, p);
        var i :| 0 <= i < |entries| && entries[i] == p;
        assert ops[i] == op;
      }
      if op in ops {
        var i :| 0 <= i < |ops| && ops[i] == op;
        FilterMembers(history, InRange(start, None), entries[i]);
      }
    }
  }

  /** Behind a cursor is what is not below it, minus the cursor itself. */
  lemma BehindCursor(cursor: Option<Text>, id: Text)
    ensures var start: Text := if cursor.Some? then cursor.value else [];
            After(cursor, id) <==> !Less(id, start) && cursor != Some(id)
  {
    hide Less;
    if cursor.Some? {
      LessIsTotal(cursor.value, id);
      if Less(cursor.value, id) { LessIsAsymmetric(cursor.value, id); }
    } else {
      LessThanNothing(id);
    }
  }

  lemma LessThanNothing(id: Bytes)
    ensures !Less(id, [])
  {
  }

  lemma RowIsStored(history: Keyspace, t: Table, id: Text)
    requires PrimaryOk(history, t) && id in t
    ensures Get(history, id) == Some(B.EncodedOperation(t[id]))
  {
    hide B.EncodedOperation, Get;
    var p := Pair(id, B.EncodedOperation(t[id]));
    assert Row(t, p);
    GetMeansMember(history, p);
  }

  class HistoryStore {
    var history: Keyspace
    var byOwner: Keyspace
    var bySku: Keyspace
    var sequence: nat
    var epoch: U64
    const redb: seq<Operation>      // what the older redb tables hold, as it decodes, in id order
    ghost var table: Table

    constructor (redb: seq<Operation>)
      requires Ascending(redb)
      ensures Valid() && IndexesExact() && table == map[] && sequence == 0 && epoch == 0 && this.redb == redb
    {
      this.redb := redb;
      history, byOwner, bySku, sequence, epoch, table := [], [], [], 0, 0, map[];
    }

    ghost predicate Valid()
      reads this
    {
      TableOk(table) && PrimaryOk(history, table) && Ascending(redb)
    }

    ghost predicate IndexesExact()
      reads this
    {
      BothIndexed(byOwner, bySku, table)
    }

    /** The primary table in id order. */
    ghost function Rows(): seq<Operation>
      requires Valid()
      reads this
    {
      RowsOf(history, table)
    }

    /** What an index read looks through: redb until the first backfill has begun. */
    ghost function Listing(): seq<Operation>
      requires Valid()
      reads this
    {
      if history == [] then redb else Rows()
    }

    /** What a read by id finds: the row, or else the row of the older tables. */
    ghost function Known(): Table
      reads this
    {
      TableOf(redb) + table
    }

    /** materialize_history_batch: one atomic write of rows, index entries and progress.
        `commits` is the store's answer; a refused batch leaves no trace. The indexes stay
        exact as long as no id changes its content. */
    method Materialize(entries: seq<Entry>, commits: bool) returns (ok: bool)
      requires Valid() && forall op :: op in AllOperations(entries) ==> Validates(op)
      modifies this
      ensures Valid() && ok == (commits || entries == [])
      ensures if ok && entries != [] then
                && table == Materialized(old(table), AllOperations(entries))
                && sequence == entries[|entries| - 1].sequence && epoch == entries[|entries| - 1].epoch
              else unchanged(this)
      ensures forall id :: !ok || !Mentions(entries, id) ==>
                (id in table <==> id in old(table)) && (id in table ==> table[id] == old(table)[id])
      ensures ok ==> forall e, k :: 0 <= e < |entries| && 0 <= k < |entries[e].operations| && LastOfId(entries, e, k) ==>
                var op := entries[e].operations[k]; op.id in table && table[op.id] == op
      ensures old(IndexesExact()) && ConsistentWith(old(table), AllOperations(entries)) ==> IndexesExact()
    {
      hide Validates, PrimaryOk, IndexOk, TableOk, ConsistentWith, Materialized;
      if entries == [] { return true; }
      forall id | !Mentions(entries, id) { UnmentionedStays(table, entries, id); }
      forall e: nat, k: nat | e < |entries| && k < |entries[e].operations| && LastOfId(entries, e, k) {
        LastMentionWins(table, entries, e, k);
      }
      var h, o, s := PutAll(history, byOwner, bySku, AllOperations(entries), table);
      if !commits { return false; }
      history, byOwner, bySku, table := h, o, s, Materialized(table, AllOperations(entries));
      sequence, epoch := entries[|entries| - 1].sequence, entries[|entries| - 1].epoch;
      ok := true;
    }

    /** by_index: the index of a field, with redb behind it as long as the LSM history is
        empty. */
    method ByIndex(f: Field, value: Text, cursor: Option<Text>, limit: nat) returns (r: Result<seq<Operation>>)
      requires Valid() && IndexesExact() && limit >= 1
      ensures r == Ok(Take(Remaining(Listing(), WithValue(f, value), cursor), limit))
      ensures |r.value| <= limit && forall i, j :: 0 <= i < j < |r.value| ==> Less(r.value[i].id, r.value[j].id)
      ensures forall op :: op in r.value ==>
                && (if history == [] then op in redb else op.id in table && table[op.id] == op)
                && (if f == Owner then op.owner == value else op.sku == value)
                && (cursor.Some? ==> Less(cursor.value, op.id))
      ensures forall op: Operation ::
                (&& (if history == [] then op in redb else op.id in table && table[op.id] == op)
                 && (if f == Owner then op.owner == value else op.sku == value)
                 && (cursor.Some? ==> Less(cursor.value, op.id))
                 && op !in r.value) ==>
                |r.value| == limit && forall x :: x in r.value ==> Less(x.id, op.id)
    {
      hide Filter, Less, TableOk, PrimaryOk;
      RowsList(history, table);
      TakenIsPage(Listing(), WithValue(f, value), cursor, limit);
      r := FromIndex(f, value, cursor, limit);
      if history == [] { FilterNothing(Beyond(WithValue(f, value), cursor)); }
      if r.value == [] && |history| == 0 { r := FromRedb(f, value, cursor, limit); }
    }

    method FromIndex(f: Field, value: Text, cursor: Option<Text>, limit: nat) returns (r: Result<seq<Operation>>)
      requires Valid() && IndexesExact() && limit >= 1
      ensures r == Ok(Take(Remaining(Rows(), WithValue(f, value), cursor), limit))
    {
      hide Less, IndexKey, Validates, PrimaryOk, IndexOk, TableOk, Sorted, B.EncodedOperation, Get, Filter;
      var index := if f.Owner? then byOwner else bySku;
      var prefix := IndexPrefix(value);
      var entries := Entries(index, value);
      EntriesAreRows(index, history, table, f, value);
      ghost var rows := Filter(Rows(), WithValue(f, value));
      ghost var want := Beyond(Everything(), cursor);
      FilterFilter(Rows(), WithValue(f, value), cursor);
      var result := [];
      assert Filter(rows[..0], want) == [] by { FilterNothing(want); }
      for i := 0 to |entries|
        invariant result == Filter(rows[..i], want) && |result| < limit
      {
        var entry := entries[i];
        assert PointsAt(table, f, value, entry);
        FilterOneMore(rows, i, want);
        IndexKeyParts(value, entry.value);
        RowHasId(table, entry.value);
        var id := entry.key[|prefix|..];
        if !Utf8(id) { return Err; }
        if cursor.Some? && !Less(cursor.value, id) { continue; }
        RowIsStored(history, table, entry.value);
        var payload := Get(history, entry.value);
        if payload.Some? {
          var op := B.DecodeOperation(payload.value);
          StoredDecodes(table, entry.value, op);
          if op.Err? { return Err; }
          result := result + [op.value];
          if |result| == limit {
            FilterOfTwoParts(rows, i + 1, want);
            assert Take(Filter(rows, want), limit) == result;
            return Ok(result);
          }
        }
      }
      assert rows[..|entries|] == rows;
      r := Ok(result);
    }

    method FromRedb(f: Field, value: Text, cursor: Option<Text>, limit: nat) returns (r: Result<seq<Operation>>)
      requires limit >= 1
      ensures r == Ok(Take(Remaining(redb, WithValue(f, value), cursor), limit))
    {
      hide Less, Filter;
      ghost var want := Beyond(WithValue(f, value), cursor);
      var result := [];
      assert Filter(redb[..0], want) == [] by { FilterNothing(want); }
      for i := 0 to |redb|
        invariant result == Filter(redb[..i], want) && |result| < limit
      {
        FilterOneMore(redb, i, want);
        var op := redb[i];
        if Of(f, op) != value || (cursor.Some? && !Less(cursor.value, op.id)) { continue; }
        result := result + [op];
        if |result| == limit {
          FilterOfTwoParts(redb, i + 1, want);
          assert Take(Filter(redb, want), limit) == result;
          return Ok(result);
        }
      }
      assert redb[..|redb|] == redb;
      r := Ok(result);
    }

    /** scan_operations. */
    method Scan(cursor: Option<Text>, limit: nat) returns (r: Result<seq<Operation>>)
      requires Valid() && limit >= 1
      ensures r == Ok(Take(Remaining(Rows(), Everything(), cursor), limit))
      ensures |r.value| <= limit && forall i, j :: 0 <= i < j < |r.value| ==> Less(r.value[i].id, r.value[j].id)
      ensures forall op :: op in r.value ==>
                op.id in table && table[op.id] == op && (cursor.Some? ==> Less(cursor.value, op.id))
      ensures forall op: Operation ::
                (op.id in table && table[op.id] == op && (cursor.Some? ==> Less(cursor.value, op.id)) && op !in r.value) ==>
                |r.value| == limit && forall x :: x in r.value ==> Less(x.id, op.id)
    {
      r := FromPrimary(cursor, limit);
      RowsList(history, table);
      TakenIsPage(Rows(), Everything(), cursor, limit);
    }

    method FromPrimary(cursor: Option<Text>, limit: nat) returns (r: Result<seq<Operation>>)
      requires Valid() && limit >= 1
      ensures r == Ok(Take(Remaining(Rows(), Everything(), cursor), limit))
    {
      hide Less, Validates, PrimaryOk, TableOk, Sorted, B.EncodedOperation, Get, Filter;
      var start: Text := if cursor.Some? then cursor.value else [];
      var entries := Range(history, start, None);
      ghost var rows := ScanWalks(history, table, start);
      ghost var want := Beyond(Everything(), cursor);
      RowsList(history, table);
      forall op | want(op) ensures NotBelow(start)(op) { BehindCursor(cursor, op.id); }
      FilterLists(rows, table, NotBelow(start), want);
      FilterLists(Rows(), table, Everything(), want);
      ListingIsUnique(Filter(rows, want), Filter(Rows(), want), table, want);
      var result := [];
      assert Filter(rows[..0], want) == [] by { FilterNothing(want); }
      for i := 0 to |entries|
        invariant result == Filter(rows[..i], want) && |result| < limit
      {
        var entry := entries[i];
        FilterOneMore(rows, i, want);
        BehindCursor(cursor, rows[i].id);
        ScanMember(rows, table, NotBelow(start), i);
        if cursor.Some? && entry.key == cursor.value { continue; }
        var op := B.DecodeOperation(entry.value);
        StoredDecodes(table, entry.key, op);
        if op.Err? { return Err; }
        result := result + [op.value];
        if |result| == limit {
          FilterOfTwoParts(rows, i + 1, want);
          assert Take(Filter(rows, want), limit) == result;
          return Ok(result);
        }
      }
      assert rows[..|entries|] == rows;
      r := Ok(result);
    }

    /** get_operations: the rows found here or in redb, in the order asked for. `at` says
        which of the ids each row answers. */
    method GetOperations(ids: seq<Text>) returns (r: Result<seq<Operation>>, ghost at: seq<nat>)
      requires Valid()
      ensures r.Ok? && |at| == |r.value|
      ensures forall j :: 0 <= j < |at| ==>
                && at[j] < |ids| && r.value[j].id == ids[at[j]]
                && if ids[at[j]] in table then r.value[j] == table[ids[at[j]]] else r.value[j] in redb
      ensures forall i, j :: 0 <= i < j < |at| ==> at[i] < at[j]
      ensures forall i: nat :: i < |ids| && (ids[i] in table || exists k :: 0 <= k < |redb| && redb[k].id == ids[i]) ==> i in at
    {
      hide Validates, PrimaryOk, Sorted, B.EncodedOperation, Get, Less;
      var result := [];
      for i := 0 to |ids|
        invariant result == FoundRows(Known(), ids[..i])
      {
        assert ids[..i + 1][..i] == ids[..i];
        if ids[i] in table { RowIsStored(history, table, ids[i]); } else { RowIsMissing(history, table, ids[i]); }
        var payload := Get(history, ids[i]);
        if payload.Some? {
          var op := B.DecodeOperation(payload.value);
          StoredDecodes(table, ids[i], op);
          if op.Err? { return Err, []; }
          result := result + [op.value];
        } else if ids[i] in TableOf(redb) {
          result := result + [TableOf(redb)[ids[i]]];
        }
      }
      assert ids[..|ids|] == ids;
      r := Ok(result);
      at := FoundInOrder(Known(), ids);
      forall id ensures id in Known() ==> Known()[id].id == id { TableOfHolds(redb, id); }
      forall i: nat | i < |ids| ensures ids[i] in Known() <==> ids[i] in table || HasId(redb, ids[i]) {
        KnownIs(redb, table, ids[i]);
      }
      forall j | 0 <= j < |at| && ids[at[j]] !in table ensures r.value[j] in redb { TableOfHolds(redb, ids[at[j]]); }
    }
  }

  lemma ScanMember(rows: seq<Operation>, t: Table, all: Operation -> bool, i: nat)
    requires Lists(rows, t, all) && i < |rows|
    ensures all(rows[i])
  {
    assert rows[i] in rows;
  }

  lemma RowIsMissing(history: Keyspace, t: Table, id: Text)
    requires PrimaryOk(history, t) && id !in t
    ensures Get(history, id) == None
  {
    hide Get;
    if Get(history, id).Some? {
      GetMeansMember(history, Pair(id, Get(history, id).value));
    }
  }

  /** The rows by their ids. */
  function TableOf(rows: seq<Operation>): Table {
    if rows == [] then map[]
    else TableOf(rows[..|rows| - 1])[rows[|rows| - 1].id := rows[|rows| - 1]]
  }

  /** The last row of an id counts, and only ids of rows are in the table. */
  lemma {:induction false} TableOfHolds(rows: seq<Operation>, id: Text)
    ensures id in TableOf(rows) <==> HasId(rows, id)
    ensures id in TableOf(rows) ==> TableOf(rows)[id].id == id && TableOf(rows)[id] in rows
  {
    if rows != [] {
      var m := |rows| - 1;
      TableOfHolds(rows[..m], id);
      HasIdOfOneMore(rows[..m], rows[m], id);
      assert rows == rows[..m] + [rows[m]];
    }
  }

  /** A read by id finds the row of the history; without one, the older row of that id. */
  lemma KnownIs(redb: seq<Operation>, table: Table, id: Text)
    requires Ascending(redb)
    ensures var known := TableOf(redb) + table;
            && (id in known <==> id in table || HasId(redb, id))
            && (id in table ==> known[id] == table[id])
            && (id !in table ==> forall op :: op in redb && op.id == id ==> known[id] == op)
  {
    TableOfHolds(redb, id);
    if id !in table {
      forall op | op in redb && op.id == id ensures HasId(redb, id) && TableOf(redb)[id] == op {
        var i :| 0 <= i < |redb| && redb[i] == op;
        assert HasId(redb, id);
        var j :| 0 <= j < |redb| && redb[j] == TableOf(redb)[id];
        if i < j { LessIsIrreflexive(id); }
        if j < i { LessIsIrreflexive(id); }
      }
    }
  }

  function FoundRows(t: Table, ids: seq<Text>): seq<Operation> {
    if ids == [] then []
    else FoundRows(t, ids[..|ids| - 1]) + if ids[|ids| - 1] in t then [t[ids[|ids| - 1]]] else []
  }

  /** The rows found are those of exactly the ids that have one, in the order asked for:
      `at` says which. */
  lemma {:induction false} FoundInOrder(t: Table, ids: seq<Text>) returns (at: seq<nat>)
    ensures |at| == |FoundRows(t, ids)|
    ensures forall j :: 0 <= j < |at| ==> at[j] < |ids| && ids[at[j]] in t && FoundRows(t, ids)[j] == t[ids[at[j]]]
    ensures forall i, j :: 0 <= i < j < |at| ==> at[i] < at[j]
    ensures forall i: nat :: i < |ids| && ids[i] in t ==> i in at
  {
    hide Utf8;
    if ids == [] {
      at := [];
    } else {
      var m := |ids| - 1;
      var before := FoundInOrder(t, ids[..m]);
      assert forall j :: 0 <= j < |before| ==> ids[..m][before[j]] == ids[before[j]];
      at := before;
      if ids[m] in t {
        at := before + [m];
        assert at[|before|] == m && forall i :: i in before ==> i in at;
      }
      assert forall i: nat :: i < m ==> ids[..m][i] == ids[i];
    }
  }

  /** A batch read comes back short exactly if a row is missing: that is when the handler
      consults the checkpoint before it answers "not found". */
  lemma {:induction false} ShortReadIff(t: Table, ids: seq<Text>)
    ensures |FoundRows(t, ids)| <= |ids|
    ensures |FoundRows(t, ids)| == |ids| <==> forall id :: id in ids ==> id in t
    ensures |FoundRows(t, ids)| == |ids| ==> forall i :: 0 <= i < |ids| ==> ids[i] in t && FoundRows(t, ids)[i] == t[ids[i]]
  {
    if ids != [] {
      var m := |ids| - 1;
      ShortReadIff(t, ids[..m]);
      assert ids == ids[..m] + [ids[m]];
    }
  }

  lemma RowHasId(t: Table, id: Text)
    requires TableOk(t) && id in t
    ensures t[id].id == id
  {
  }

  lemma FilterNothing<T>(want: T -> bool)
    ensures Filter([], want) == []
  {
  }

  lemma FilterOneMore<T>(xs: seq<T>, i: nat, want: T -> bool)
    requires i < |xs|
    ensures Filter(xs[..i + 1], want) == Filter(xs[..i], want) + if want(xs[i]) then [xs[i]] else []
  {
    assert xs[..i + 1][..i] == xs[..i];
  }

  lemma IndexKeyParts(value: Text, id: Text)
    ensures |IndexKey(value, id)| >= |IndexPrefix(value)| && IndexKey(value, id)[|IndexPrefix(value)|..] == id
  {
  }

  lemma StoredDecodes(t: Table, id: Text, r: Result<Operation>)
    requires TableOk(t) && id in t
    requires r.Ok? ==> B.Encodable(r.value) && B.EncodedOperation(t[id]) == B.EncodedOperation(r.value)
    requires r.Err? ==> forall op :: B.Encodable(op) ==> B.EncodedOperation(t[id]) != B.EncodedOperation(op)
    ensures r == Ok(t[id])
  {
    hide B.EncodedOperation, Validates;
    ValidatedIsEncodable(t[id]);
    if r.Ok? {
      assert B.EncodedOperation(t[id]) + [] == B.EncodedOperation(r.value);
      B.EncodingsArePrefixFree(t[id], r.value, []);
    }
  }

  ghost predicate BothIndexed(o: Keyspace, s: Keyspace, t: Table) { IndexOk(o, t, Owner) && IndexOk(s, t, Sku) }

  /** The batch that one history write builds. */
  method PutAll(history: Keyspace, byOwner: Keyspace, bySku: Keyspace, operations: seq<Operation>, ghost t: Table)
    returns (h: Keyspace, o: Keyspace, s: Keyspace)
    requires TableOk(t) && PrimaryOk(history, t) && forall op :: op in operations ==> Validates(op)
    ensures TableOk(Materialized(t, operations)) && PrimaryOk(h, Materialized(t, operations))
    ensures BothIndexed(byOwner, bySku, t) && ConsistentWith(t, operations) ==> BothIndexed(o, s, Materialized(t, operations))
  {
    hide Validates, PrimaryOk, BothIndexed, TableOk, Put, ConsistentWith, B.EncodedOperation, B.Encodable, Sorted;
    h, o, s := history, byOwner, bySku;
    ghost var exact := BothIndexed(byOwner, bySku, t) && ConsistentWith(t, operations);
    for i := 0 to |operations|
      invariant TableOk(Materialized(t, operations[..i])) && PrimaryOk(h, Materialized(t, operations[..i]))
      invariant exact ==> BothIndexed(o, s, Materialized(t, operations[..i]))
    {
      var op := operations[i];
      ghost var before := Materialized(t, operations[..i]);
      assert operations[..i + 1][..i] == operations[..i];
      ValidatedIsEncodable(op);
      var payload := B.EncodeOperation(op);
      PrimaryAfterPut(h, before, op);
      if exact { IndexesAfterPut(o, s, t, operations, i, before); }
      PutValidated(before, op);
      h := Put(h, op.id, payload.value);
      o := Put(o, IndexKey(op.owner, op.id), op.id);
      s := Put(s, IndexKey(op.sku, op.id), op.id);
    }
    assert operations[..|operations|] == operations;
  }

  lemma PutValidated(t: Table, op: Operation)
    requires TableOk(t) && Validates(op)
    ensures TableOk(t[op.id := op])
  {
    hide Validates;
  }

  lemma IndexesAfterPut(o: Keyspace, s: Keyspace, was: Table, ops: seq<Operation>, n: nat, t: Table)
    requires n < |ops| && ConsistentWith(was, ops) && Validates(ops[n])
    requires TableOk(t) && t == Materialized(was, ops[..n]) && BothIndexed(o, s, t)
    ensures var op := ops[n];
            BothIndexed(Put(o, IndexKey(op.owner, op.id), op.id), Put(s, IndexKey(op.sku, op.id), op.id), t[op.id := op])
  {
    hide Validates, IndexOk, Put, TableOk, IndexKey;
    var op := ops[n];
    assert ConsistentWith(was, ops[..n]) && op in ops;
    if op.id in t {
      MaterializedHolds(was, ops[..n], op.id);
    }
    IndexAfterPut(o, t, Owner, op);
    IndexAfterPut(s, t, Sku, op);
  }
}
