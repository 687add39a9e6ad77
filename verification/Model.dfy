/** Values every part of the warehouse shares: byte strings, operations, their
    validation (src/model.rs), and sums of deltas. */
module Model {

  type byte = b: int | 0 <= b < 256
  type Bytes = seq<byte>

  type U64 = n: int | 0 <= n < 0x1_0000_0000_0000_0000
  type I64 = n: int | -0x8000_0000_0000_0000 <= n < 0x8000_0000_0000_0000

  const MAX_U64: U64 := 0xFFFF_FFFF_FFFF_FFFF

  datatype Option<+T> = None | Some(value: T)

  datatype Result<+T> = Ok(value: T) | Err

  predicate Continuation(b: byte) { 0x80 <= b <= 0xBF }

  /** Well-formed UTF-8 (section 4 of RFC 3629): what Rust guarantees of every
      `str` and what `from_utf8` checks. */
  predicate Utf8(s: Bytes) {
    |s| == 0
    || (s[0] < 0x80 && Utf8(s[1..]))
    || (|s| >= 2 && 0xC2 <= s[0] <= 0xDF && Continuation(s[1]) && Utf8(s[2..]))
    || (|s| >= 3 && 0xE0 <= s[0] <= 0xEF && Continuation(s[1]) && Continuation(s[2])
        && (s[0] == 0xE0 ==> 0xA0 <= s[1]) && (s[0] == 0xED ==> s[1] <= 0x9F) && Utf8(s[3..]))
    || (|s| >= 4 && 0xF0 <= s[0] <= 0xF4 && Continuation(s[1]) && Continuation(s[2]) && Continuation(s[3])
        && (s[0] == 0xF0 ==> 0x90 <= s[1]) && (s[0] == 0xF4 ==> s[1] <= 0x8F) && Utf8(s[4..]))
  }

  /** A Rust `String`: its bytes, compared and measured as bytes. */
  type Text = s: Bytes | Utf8(s) witness []

  /** The byte 0xFF, which closes every index range, never occurs in UTF-8. */
  lemma {:induction false} Utf8StaysBelowFF(s: Bytes, i: nat)
    requires Utf8(s) && i < |s|
    ensures s[i] < 0xF5
    decreases |s|
  {
    var n := if s[0] < 0x80 then 1 else if s[0] <= 0xDF then 2 else if s[0] <= 0xEF then 3 else 4;
    if i >= n {
      assert s[i] == s[n..][i - n];
      Utf8StaysBelowFF(s[n..], i - n);
    }
  }

  /** The Unicode scalar values, and their bytes (section 3 of RFC 3629). */
  predicate Scalar(c: nat) { c < 0xD800 || 0xE000 <= c < 0x11_0000 }

  function ScalarBytes(c: nat): Bytes
    requires Scalar(c)
  {
    if c < 0x80 then [c]
    else if c < 0x800 then [0xC0 + c / 0x40, 0x80 + c % 0x40]
    else if c < 0x1_0000 then [0xE0 + c / 0x1000, 0x80 + c / 0x40 % 0x40, 0x80 + c % 0x40]
    else [0xF0 + c / 0x4_0000, 0x80 + c / 0x1000 % 0x40, 0x80 + c / 0x40 % 0x40, 0x80 + c % 0x40]
  }

  lemma ScalarShape(c: nat)
    requires Scalar(c)
    ensures var e := ScalarBytes(c);
            || (|e| == 1 && e[0] < 0x80)
            || (|e| == 2 && 0xC2 <= e[0] <= 0xDF && Continuation(e[1]))
            || (|e| == 3 && 0xE0 <= e[0] <= 0xEF && Continuation(e[1]) && Continuation(e[2])
                && (e[0] == 0xE0 ==> 0xA0 <= e[1]) && (e[0] == 0xED ==> e[1] <= 0x9F))
            || (|e| == 4 && 0xF0 <= e[0] <= 0xF4 && Continuation(e[1]) && Continuation(e[2]) && Continuation(e[3])
                && (e[0] == 0xF0 ==> 0x90 <= e[1]) && (e[0] == 0xF4 ==> e[1] <= 0x8F))
  {
  }

  /** Text is what the encodings of scalar values add up to: any of them may be put in
      front, and whatever is not empty starts with one. */
  lemma ScalarsMakeText(c: nat, s: Bytes)
    requires Scalar(c)
    ensures Utf8(ScalarBytes(c) + s) <==> Utf8(s)
  {
    ScalarShape(c);
    hide ScalarBytes;
    var t := ScalarBytes(c) + s;
    assert t[|ScalarBytes(c)|..] == s;
    assert forall i :: 0 <= i < |ScalarBytes(c)| ==> t[i] == ScalarBytes(c)[i];
  }

  lemma TextStartsWithScalar(s: Bytes) returns (c: nat)
    requires Utf8(s) && s != []
    ensures Scalar(c) && ScalarBytes(c) <= s && Utf8(s[|ScalarBytes(c)|..])
  {
    if s[0] < 0x80 {
      c := s[0];
    } else if s[0] <= 0xDF {
      c := FromSixBits(0, 0, s[0] as int - 0xC0, s[1] as int - 0x80);
    } else if s[0] <= 0xEF {
      c := FromSixBits(0, s[0] as int - 0xE0, s[1] as int - 0x80, s[2] as int - 0x80);
    } else {
      c := FromSixBits(s[0] as int - 0xF0, s[1] as int - 0x80, s[2] as int - 0x80, s[3] as int - 0x80);
    }
  }

  lemma FromSixBits(a: nat, b: nat, d: nat, e: nat) returns (c: nat)
    requires b < 0x40 && d < 0x40 && e < 0x40
    ensures c == a * 0x4_0000 + b * 0x1000 + d * 0x40 + e
    ensures c / 0x4_0000 == a && c / 0x1000 == a * 0x40 + b && c / 0x40 == a * 0x1000 + b * 0x40 + d
    ensures c / 0x1000 % 0x40 == b && c / 0x40 % 0x40 == d && c % 0x40 == e
  {
    c := a * 0x4_0000 + b * 0x1000 + d * 0x40 + e;
  }

  datatype Operation = Operation(id: Text, owner: Text, sku: Text, delta: I64, version: U64)

  /** What the fingerprint digests. SHA-256 is taken as a free constructor: equal
      digests mean equal contents, and the digest of an id stands for the id. */
  datatype Content = Content(owner: Text, sku: Text, delta: I64, version: U64)

  function Fingerprint(op: Operation): Content {
    Content(op.owner, op.sku, op.delta, op.version)
  }

  datatype Position = Position(owner: Text, sku: Text)

  function PositionOf(op: Operation): Position {
    Position(op.owner, op.sku)
  }

  // ----- Operation::validate -----

  const MAX_DELTA := 1_000_000_000

  predicate HasControl(s: Bytes) {
    exists i :: 0 <= i < |s| &&
      (s[i] < 0x20 || s[i] == 0x7F || (s[i] == 0xC2 && i + 1 < |s| && 0x80 <= s[i + 1] <= 0x9F))
  }

  /** The characters `str::trim` strips: Unicode White_Space, in UTF-8. */
  const WHITE_SPACE: set<Bytes> := ASCII_SPACE + WIDE_SPACE

  const ASCII_SPACE: set<Bytes> := { [0x09], [0x0A], [0x0B], [0x0C], [0x0D], [0x20] }

  const WIDE_SPACE: set<Bytes> := {
    [0xC2, 0x85], [0xC2, 0xA0], [0xE1, 0x9A, 0x80],
    [0xE2, 0x80, 0x80], [0xE2, 0x80, 0x81], [0xE2, 0x80, 0x82], [0xE2, 0x80, 0x83], [0xE2, 0x80, 0x84],
    [0xE2, 0x80, 0x85], [0xE2, 0x80, 0x86], [0xE2, 0x80, 0x87], [0xE2, 0x80, 0x88], [0xE2, 0x80, 0x89],
    [0xE2, 0x80, 0x8A], [0xE2, 0x80, 0xA8], [0xE2, 0x80, 0xA9], [0xE2, 0x80, 0xAF], [0xE2, 0x81, 0x9F],
    [0xE3, 0x80, 0x80] }

  predicate Trimmed(s: Bytes) {
    forall w :: w in WHITE_SPACE ==> !(w <= s) && !(|w| <= |s| && s[|s| - |w|..] == w)
  }

  predicate ValidIdentifier(s: Text) {
    1 <= |s| <= 128 && Trimmed(s) && !HasControl(s)
  }

  predicate Validates(op: Operation) {
    && ValidIdentifier(op.id) && ValidIdentifier(op.owner) && ValidIdentifier(op.sku)
    && op.delta != 0
    && -MAX_DELTA <= op.delta <= MAX_DELTA
    && op.version == 1
  }

  /** A smallest operation that validates. */
  const SAMPLE := Operation(LETTER, LETTER, LETTER, 1, 1)

  const LETTER: Text := [0x61]

  lemma LettersAreNotSpace()
    ensures LETTER !in WHITE_SPACE && [] !in WHITE_SPACE
  {
  }

  lemma SampleValidates()
    ensures Validates(SAMPLE)
  {
    hide WHITE_SPACE, Utf8;
    LettersAreNotSpace();
    forall w | w in WHITE_SPACE ensures !(w <= LETTER) && !(|w| <= |LETTER| && LETTER[|LETTER| - |w|..] == w) {
      assert |w| == 0 ==> w == [];
      assert |w| == 1 && w[0] == LETTER[0] ==> w == LETTER;
    }
  }

  /** The limits of a valid operation, one field at a time. */
  lemma ValidationLimits(op: Operation, delta: I64, version: U64)
    requires Validates(op)
    ensures Validates(op.(delta := delta)) <==> delta != 0 && -1_000_000_000 <= delta <= 1_000_000_000
    ensures Validates(op.(version := version)) <==> version == 1
    ensures !Validates(op.(id := [])) && !Validates(op.(owner := [])) && !Validates(op.(sku := []))
  {
    hide WHITE_SPACE, Trimmed, HasControl;
  }

  /** A name of one ASCII character is valid exactly if the character prints. */
  lemma OneCharacterNames(b: byte)
    requires b < 0x80
    ensures Utf8([b]) && (ValidIdentifier([b]) <==> 0x21 <= b <= 0x7E)
  {
    hide WHITE_SPACE, Utf8;
    var s := [b];
    AsciiIsText(b);
    assert HasControl(s) <==> b < 0x20 || b == 0x7F by { assert s[0] == b; }
    OneByteSpaces(b);
    forall w | w in WHITE_SPACE ensures w <= s || (|w| <= 1 && s[1 - |w|..] == w) <==> w == s {
      SpacesAreNotEmpty(w);
      if |w| == 1 { assert s[0..] == s; }
    }
  }

  lemma AsciiIsText(b: byte)
    requires b < 0x80
    ensures Utf8([b])
  {
    assert [b][1..] == [];
  }

  lemma SpacesAreNotEmpty(w: Bytes)
    requires w in WHITE_SPACE
    ensures w != []
  {
  }

  lemma OneByteSpaces(b: byte)
    ensures [b] in WHITE_SPACE <==> 0x09 <= b <= 0x0D || b == 0x20
  {
    hide WIDE_SPACE;
    WideSpaces([b]);
    AsciiSpaces([b]);
  }

  lemma AsciiSpaces(w: Bytes)
    requires |w| == 1
    ensures w in ASCII_SPACE <==> 0x09 <= w[0] <= 0x0D || w[0] == 0x20
  {
    assert forall b: byte :: w == [b] <==> w[0] == b;
  }

  lemma WideSpaces(w: Bytes)
    requires |w| == 1
    ensures w !in WIDE_SPACE
  {
  }

  function Letters(n: nat): (r: Bytes)
    ensures |r| == n && forall i :: 0 <= i < n ==> r[i] == 0x61
  {
    seq(n, _ => 0x61)
  }

  lemma {:induction false} LettersAreText(n: nat)
    ensures Utf8(Letters(n))
    decreases n
  {
    if n > 0 {
      LettersAreText(n - 1);
      assert Letters(n)[1..] == Letters(n - 1);
    }
  }

  /** A name of letters is valid exactly if it has 1 to 128 of them. */
  lemma NameLengths(n: nat)
    ensures Utf8(Letters(n)) && (ValidIdentifier(Letters(n)) <==> 1 <= n <= 128)
  {
    hide Utf8, WHITE_SPACE;
    LettersAreText(n);
    forall w | w in WHITE_SPACE ensures !(w <= Letters(n)) && !(|w| <= n && Letters(n)[n - |w|..] == w) {
      LettersAreNoSpace(w, n);
    }
  }

  lemma LettersAreNoSpace(w: Bytes, n: nat)
    requires w in WHITE_SPACE
    ensures !(w <= Letters(n)) && !(|w| <= n && Letters(n)[n - |w|..] == w)
  {
    hide WHITE_SPACE;
    SpaceHasNoLetter(w);
    assert |w| <= n ==> Letters(n)[n - |w|..][0] == 0x61;
  }

  lemma SpaceHasNoLetter(w: Bytes)
    requires w in WHITE_SPACE
    ensures w != [] && w[0] != 0x61
  {
  }

  predicate NulFree(s: Bytes) {
    forall i :: 0 <= i < |s| ==> s[i] != 0
  }

  lemma ValidIdentifiersAreNulFree(s: Text)
    requires ValidIdentifier(s)
    ensures NulFree(s) && s != []
  {
    forall i | 0 <= i < |s| ensures s[i] != 0 {
      if s[i] == 0 { assert HasControl(s); }
    }
  }

  // ----- Sums of deltas -----

  /** The weights of the elements of a finite set, added up. */
  ghost function SumOver<T(!new)>(elements: set<T>, weight: T -> int): int {
    if elements == {} then 0
    else
      var x :| x in elements;
      weight(x) + SumOver(elements - {x}, weight)
  }

  /** Whichever element is taken out first. */
  lemma {:induction false} SumWithout<T(!new)>(elements: set<T>, weight: T -> int, x: T)
    requires x in elements
    ensures SumOver(elements, weight) == weight(x) + SumOver(elements - {x}, weight)
    decreases elements
  {
    var y :| y in elements && SumOver(elements, weight) == weight(y) + SumOver(elements - {y}, weight);
    if y != x {
      SumWithout(elements - {y}, weight, x);
      SumWithout(elements - {x}, weight, y);
      assert elements - {y} - {x} == elements - {x} - {y};
    }
  }

  lemma {:induction false} SumOfParts<T(!new)>(a: set<T>, b: set<T>, weight: T -> int)
    requires a !! b
    ensures SumOver(a + b, weight) == SumOver(a, weight) + SumOver(b, weight)
    decreases b
  {
    if b == {} {
      assert a + b == a;
    } else {
      var x :| x in b;
      SumOfParts(a, b - {x}, weight);
      SumWithout(a + b, weight, x);
      SumWithout(b, weight, x);
      assert a + b - {x} == a + (b - {x});
    }
  }

  /** Elements may be renamed. */
  lemma {:induction false} SumOfImage<T(!new), U(!new)>(a: set<T>, weight: T -> int, b: set<U>, other: U -> int, f: T -> U)
    requires forall x :: x in a ==> f(x) in b && other(f(x)) == weight(x)
    requires forall x, y :: x in a && y in a && f(x) == f(y) ==> x == y
    requires forall u :: u in b ==> exists x :: x in a && f(x) == u
    ensures SumOver(a, weight) == SumOver(b, other)
    decreases a
  {
    if a == {} {
      assert b == {};
    } else {
      var x :| x in a;
      SumWithout(a, weight, x);
      SumWithout(b, other, f(x));
      SumOfImage(a - {x}, weight, b - {f(x)}, other, f);
    }
  }

  function Contribution(op: Operation, p: Position): int {
    if op.owner == p.owner && op.sku == p.sku then op.delta else 0
  }

  /** The balance that a sequence of operations leaves at a position. */
  function Total(ops: seq<Operation>, p: Position): int {
    if ops == [] then 0 else Total(ops[..|ops| - 1], p) + Contribution(ops[|ops| - 1], p)
  }

  /** Where operations of this owner and SKU stand in the sequence. */
  function Concerned(ops: seq<Operation>, owner: Text, sku: Text): set<nat> {
    set i: nat | i < |ops| && ops[i].owner == owner && ops[i].sku == sku
  }

  function DeltaAt(ops: seq<Operation>): nat -> int {
    (i: nat) => if i < |ops| then ops[i].delta else 0
  }

  /** The total at a position is the sum of the deltas of exactly the operations with that
      owner and that SKU. */
  lemma {:induction false} TotalIsSum(ops: seq<Operation>, owner: Text, sku: Text)
    ensures Total(ops, Position(owner, sku))
            == SumOver((set i: nat | i < |ops| && ops[i].owner == owner && ops[i].sku == sku), DeltaAt(ops))
  {
    var all := Concerned(ops, owner, sku);
    if ops == [] {
      assert all == {};
    } else {
      var m := |ops| - 1;
      var before := Concerned(ops[..m], owner, sku);
      TotalIsSum(ops[..m], owner, sku);
      SameWeights(before, DeltaAt(ops[..m]), DeltaAt(ops));
      if ops[m].owner == owner && ops[m].sku == sku {
        assert all - {m} == before;
        SumWithout<nat>(all, DeltaAt(ops), m);
      } else {
        assert all == before;
      }
    }
  }

  lemma {:induction false} SameWeights<T(!new)>(elements: set<T>, a: T -> int, b: T -> int)
    requires forall x :: x in elements ==> a(x) == b(x)
    ensures SumOver(elements, a) == SumOver(elements, b)
    decreases elements
  {
    if elements != {} {
      var x :| x in elements;
      SumWithout(elements, a, x);
      SumWithout(elements, b, x);
      SameWeights(elements - {x}, a, b);
    }
  }

  lemma {:induction false} TotalOfConcat(a: seq<Operation>, b: seq<Operation>, p: Position)
    ensures Total(a + b, p) == Total(a, p) + Total(b, p)
  {
    if b == [] {
      assert a + b == a;
    } else {
      var m := |b| - 1;
      assert (a + b)[..|a + b| - 1] == a + b[..m];
      TotalOfConcat(a, b[..m], p);
    }
  }

  /** No two entries share an operation id. */
  ghost predicate DistinctIds(ops: seq<Operation>) {
    forall i, j :: 0 <= i < j < |ops| ==> ops[i].id != ops[j].id
  }

  /** No id stands for two different operations. */
  ghost predicate ConsistentIds(ops: seq<Operation>) {
    forall a, b :: a in ops && b in ops && a.id == b.id ==> a == b
  }

  predicate HasId(ops: seq<Operation>, id: Text) {
    exists i :: 0 <= i < |ops| && ops[i].id == id
  }

  /** The first occurrence of every id, in order: what applying a sequence once
      per id means. */
  function FirstPerId(ops: seq<Operation>): (r: seq<Operation>) {
    if ops == [] then []
    else
      var m := |ops| - 1;
      FirstPerId(ops[..m]) + if HasId(ops[..m], ops[m].id) then [] else [ops[m]]
  }

  /** `ops[i]` is the first record of its id. */
  predicate FirstRecord(ops: seq<Operation>, i: nat)
    requires i < |ops|
  {
    forall j :: 0 <= j < i ==> ops[j].id != ops[i].id
  }

  /** What stays is each id's first record, whatever comes later under the same id. */
  lemma {:induction false} FirstPerIdMembers(ops: seq<Operation>, op: Operation)
    ensures op in FirstPerId(ops) <==> exists i: nat :: i < |ops| && ops[i] == op && FirstRecord(ops, i)
  {
    hide Utf8, FirstRecord, HasId;
    if ops != [] {
      var m := |ops| - 1;
      FirstPerIdMembers(ops[..m], op);
      FirstRecords(ops);
    }
  }

  lemma FirstRecords(ops: seq<Operation>)
    requires ops != []
    ensures var m := |ops| - 1;
            && (FirstRecord(ops, m) <==> !HasId(ops[..m], ops[m].id))
            && forall i: nat :: i < m ==> ops[..m][i] == ops[i] && (FirstRecord(ops[..m], i) <==> FirstRecord(ops, i))
  {
    hide Utf8;
  }

  function FirstsFor(ops: seq<Operation>, owner: Text, sku: Text): set<nat> {
    set i: nat | i < |ops| && FirstRecord(ops, i) && ops[i].owner == owner && ops[i].sku == sku
  }

  lemma FirstsGrow(ops: seq<Operation>, owner: Text, sku: Text)
    requires ops != []
    ensures var m := |ops| - 1;
            var before := FirstsFor(ops[..m], owner, sku);
            m !in before && FirstsFor(ops, owner, sku)
                            == if !HasId(ops[..m], ops[m].id) && ops[m].owner == owner && ops[m].sku == sku then before + {m} else before
  {
    hide Utf8, HasId, FirstRecord;
    FirstRecords(ops);
  }

  /** Once per id means: the deltas of the first records. */
  lemma {:induction false} TotalOfFirsts(ops: seq<Operation>, owner: Text, sku: Text)
    ensures Total(FirstPerId(ops), Position(owner, sku)) == SumOver(FirstsFor(ops, owner, sku), DeltaAt(ops))
  {
    hide Utf8, HasId, FirstRecord;
    if ops == [] {
      assert FirstsFor(ops, owner, sku) == {};
    } else {
      var m := |ops| - 1;
      var before, firsts := FirstsFor(ops[..m], owner, sku), FirstPerId(ops[..m]);
      TotalOfFirsts(ops[..m], owner, sku);
      FirstsGrow(ops, owner, sku);
      SameWeights<nat>(before, DeltaAt(ops[..m]), DeltaAt(ops));
      assert (firsts + [ops[m]])[..|firsts|] == firsts && firsts + [] == firsts;
      if FirstsFor(ops, owner, sku) != before {
        assert FirstsFor(ops, owner, sku) - {m} == before;
        SumWithout<nat>(FirstsFor(ops, owner, sku), DeltaAt(ops), m);
      }
    }
  }

  lemma HasIdOfOneMore(ops: seq<Operation>, op: Operation, id: Text)
    ensures HasId(ops + [op], id) <==> HasId(ops, id) || id == op.id
  {
    var all := ops + [op];
    if HasId(ops, id) {
      var i :| 0 <= i < |ops| && ops[i].id == id;
      assert all[i].id == id;
    }
    assert all[|ops|].id == op.id;
  }

  lemma {:induction false} FirstPerIdFacts(ops: seq<Operation>)
    ensures DistinctIds(FirstPerId(ops))
    ensures forall op :: op in FirstPerId(ops) ==> op in ops
    ensures forall id :: HasId(FirstPerId(ops), id) <==> HasId(ops, id)
  {
    if ops != [] {
      var m := |ops| - 1;
      var before := FirstPerId(ops[..m]);
      FirstPerIdFacts(ops[..m]);
      assert ops == ops[..m] + [ops[m]];
      forall id ensures HasId(FirstPerId(ops), id) <==> HasId(ops, id) {
        HasIdOfOneMore(ops[..m], ops[m], id);
        HasIdOfOneMore(before, ops[m], id);
        assert before + [] == before;
      }
      if !HasId(ops[..m], ops[m].id) {
        assert !HasId(before, ops[m].id);
        assert forall i :: 0 <= i < |before| ==> before[i].id != ops[m].id;
      }
    }
  }

  function DeltaOf(op: Operation): int { op.delta }

  function OpsFor(ops: seq<Operation>, owner: Text, sku: Text): set<Operation> {
    set op | op in ops && op.owner == owner && op.sku == sku
  }

  /** Of operations without repeated ids only the set matters. */
  lemma {:induction false} TotalIsSumOfSet(ops: seq<Operation>, owner: Text, sku: Text)
    requires DistinctIds(ops)
    ensures Total(ops, Position(owner, sku)) == SumOver((set op | op in ops && op.owner == owner && op.sku == sku), DeltaOf)
  {
    hide Utf8;
    var all := OpsFor(ops, owner, sku);
    if ops == [] {
      assert all == {};
    } else {
      var last, before := ops[|ops| - 1], ops[..|ops| - 1];
      TotalIsSumOfSet(before, owner, sku);
      assert ops == before + [last] && last !in before;
      if last.owner == owner && last.sku == sku {
        assert all - {last} == OpsFor(before, owner, sku);
        SumWithout(all, DeltaOf, last);
      } else {
        assert all == OpsFor(before, owner, sku);
      }
    }
  }

  function Without(ops: seq<Operation>, j: nat): seq<Operation>
    requires j < |ops|
  {
    ops[..j] + ops[j + 1..]
  }

  lemma TotalWithout(ops: seq<Operation>, j: nat, p: Position)
    requires j < |ops|
    ensures Total(ops, p) == Total(Without(ops, j), p) + Contribution(ops[j], p)
  {
    assert ops == ops[..j] + ([ops[j]] + ops[j + 1..]);
    TotalOfConcat(ops[..j], [ops[j]] + ops[j + 1..], p);
    TotalOfConcat([ops[j]], ops[j + 1..], p);
    TotalOfConcat(ops[..j], ops[j + 1..], p);
    assert [ops[j]][..0] == [];
  }

  lemma MembersWithout(ops: seq<Operation>, j: nat)
    requires j < |ops| && DistinctIds(ops)
    ensures DistinctIds(Without(ops, j))
    ensures forall op :: op in Without(ops, j) <==> op in ops && op != ops[j]
  {
    var rest := Without(ops, j);
    assert forall i :: 0 <= i < |rest| ==> rest[i] == ops[if i < j then i else i + 1];
    forall op ensures op in rest <==> op in ops && op != ops[j] {
      if op in ops && op != ops[j] {
        var i :| 0 <= i < |ops| && ops[i] == op;
        assert rest[if i < j then i else i - 1] == op;
      }
    }
  }

  /** Operations without repeated ids: the balance depends on the set alone. */
  lemma {:induction false} TotalDependsOnMembers(a: seq<Operation>, b: seq<Operation>, p: Position)
    requires DistinctIds(a) && DistinctIds(b)
    requires forall op :: op in a <==> op in b
    ensures Total(a, p) == Total(b, p)
    decreases |a|
  {
    assert |b| > 0 ==> b[0] in b;
    if a == [] {
      assert b == [];
    } else {
      var m := |a| - 1;
      assert a[m] in b;
      var j :| 0 <= j < |b| && b[j] == a[m];
      assert Without(a, m) == a[..m];
      MembersWithout(a, m);
      MembersWithout(b, j);
      TotalDependsOnMembers(a[..m], Without(b, j), p);
      TotalWithout(b, j, p);
    }
  }

  function Touching(ops: seq<Operation>, p: Position): nat {
    if ops == [] then 0
    else Touching(ops[..|ops| - 1], p) + if ops[|ops| - 1].owner == p.owner && ops[|ops| - 1].sku == p.sku then 1 else 0
  }

  /** How many operations there are for an owner and a SKU. */
  lemma {:induction false} TouchingIsCount(ops: seq<Operation>, owner: Text, sku: Text)
    ensures Touching(ops, Position(owner, sku)) == |set i: nat | i < |ops| && ops[i].owner == owner && ops[i].sku == sku|
  {
    hide Utf8;
    if ops == [] {
      assert Concerned(ops, owner, sku) == {};
    } else {
      TouchingIsCount(ops[..|ops| - 1], owner, sku);
      ConcernedGrows(ops, owner, sku);
    }
    assert (set i: nat | i < |ops| && ops[i].owner == owner && ops[i].sku == sku) == Concerned(ops, owner, sku);
  }

  lemma ConcernedGrows(ops: seq<Operation>, owner: Text, sku: Text)
    requires ops != []
    ensures var m := |ops| - 1;
            var before := Concerned(ops[..m], owner, sku);
            m !in before && Concerned(ops, owner, sku) == if ops[m].owner == owner && ops[m].sku == sku then before + {m} else before
  {
  }

  lemma {:induction false} TotalIsBounded(ops: seq<Operation>, p: Position)
    requires forall op :: op in ops ==> -MAX_DELTA <= op.delta <= MAX_DELTA
    ensures -MAX_DELTA * Touching(ops, p) <= Total(ops, p) <= MAX_DELTA * Touching(ops, p)
  {
    if ops != [] {
      TotalIsBounded(ops[..|ops| - 1], p);
    }
  }

  /** With validated deltas no balance leaves i64 within 9,223,372,036 operations
      per position. */
  lemma BalancesStayInRange(ops: seq<Operation>, p: Position)
    requires forall op :: op in ops ==> Validates(op)
    requires Touching(ops, p) <= 9_223_372_036
    ensures -0x8000_0000_0000_0000 <= Total(ops, p) < 0x8000_0000_0000_0000
  {
    TotalIsBounded(ops, p);
  }

  lemma {:induction false} TotalOfRepeats(op: Operation, n: nat)
    requires op.delta == MAX_DELTA
    ensures Total(seq(n, _ => op), PositionOf(op)) == n * MAX_DELTA
  {
    if n > 0 {
      assert seq(n, _ => op)[..n - 1] == seq(n - 1, _ => op);
      TotalOfRepeats(op, n - 1);
    }
  }

  /** The limit is exact: any longer run of one largest operation leaves i64. */
  lemma BalanceLimitIsTight(op: Operation, n: nat)
    requires op.delta == 1_000_000_000 && n > 9_223_372_036
    ensures Total(seq(n, _ => op), PositionOf(op)) >= 0x8000_0000_0000_0000
  {
    TotalOfRepeats(op, n);
  }

  // ----- Balances -----

  type Balances = map<Position, int>

  function Balance(b: Balances, p: Position): int {
    if p in b then b[p] else 0
  }

  function Add(b: Balances, op: Operation): Balances {
    b[PositionOf(op) := Balance(b, PositionOf(op)) + op.delta]
  }

  function AddAll(b: Balances, ops: seq<Operation>): Balances {
    if ops == [] then b else Add(AddAll(b, ops[..|ops| - 1]), ops[|ops| - 1])
  }

  /** The operations of a request that preflight marked as new, in request order. */
  function MarkedOps(ops: seq<Operation>, marks: seq<bool>): seq<Operation>
    requires |marks| == |ops|
  {
    if ops == [] then []
    else
      var m := |ops| - 1;
      MarkedOps(ops[..m], marks[..m]) + if marks[m] then [ops[m]] else []
  }

  /** Their total at a position: the marked operations with that owner and SKU. */
  lemma {:induction false} TotalOfMarked(ops: seq<Operation>, marks: seq<bool>, n: nat, owner: Text, sku: Text)
    requires |marks| == |ops| && n <= |ops|
    ensures Total(MarkedOps(ops[..n], marks[..n]), Position(owner, sku))
            == SumOver((set j: nat | j < n && marks[j] && ops[j].owner == owner && ops[j].sku == sku), DeltaAt(ops))
  {
    hide Utf8;
    if n == 0 {
      assert MarkedFor(ops, marks, n, owner, sku) == {};
    } else {
      var m := n - 1;
      var before := MarkedOps(ops[..m], marks[..m]);
      TotalOfMarked(ops, marks, m, owner, sku);
      assert ops[..n][..m] == ops[..m] && marks[..n][..m] == marks[..m];
      assert (before + [ops[m]])[..|before|] == before && before + [] == before;
      if marks[m] && ops[m].owner == owner && ops[m].sku == sku {
        assert MarkedFor(ops, marks, n, owner, sku) - {m} == MarkedFor(ops, marks, m, owner, sku);
        SumWithout<nat>(MarkedFor(ops, marks, n, owner, sku), DeltaAt(ops), m);
      } else {
        assert MarkedFor(ops, marks, n, owner, sku) == MarkedFor(ops, marks, m, owner, sku);
      }
    }
  }

  function MarkedFor(ops: seq<Operation>, marks: seq<bool>, n: nat, owner: Text, sku: Text): set<nat>
    requires |marks| == |ops| && n <= |ops|
  {
    set j: nat | j < n && marks[j] && ops[j].owner == owner && ops[j].sku == sku
  }

  lemma {:induction false} BalanceAfterAll(b: Balances, ops: seq<Operation>, p: Position)
    ensures Balance(AddAll(b, ops), p) == Balance(b, p) + Total(ops, p)
    ensures p in AddAll(b, ops) <==> p in b || Touching(ops, p) > 0
  {
    if ops != [] { BalanceAfterAll(b, ops[..|ops| - 1], p); }
  }
}
