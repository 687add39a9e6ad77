/** An ordered keyspace of the LSM store: keys in byte order, point reads, ranges. */
module Keyspaces {
  import opened Model

  datatype Pair = Pair(key: Bytes, value: Bytes)

  type Keyspace = seq<Pair>

  // ----- Byte order -----

  predicate Less(a: Bytes, b: Bytes) {
    b != [] && (a == [] || a[0] < b[0] || (a[0] == b[0] && Less(a[1..], b[1..])))
  }

  /** Byte order is decided at the first difference; a proper prefix comes first. */
  lemma {:induction false} LessIsLexicographic(a: Bytes, b: Bytes)
    ensures Less(a, b) <==> exists n: nat :: FirstDifference(a, b, n)
    decreases |a|
  {
    if a == [] {
      assert b != [] ==> FirstDifference(a, b, 0);
    } else if b != [] && a[0] == b[0] {
      LessIsLexicographic(a[1..], b[1..]);
      if n: nat :| FirstDifference(a[1..], b[1..], n) {
        assert a[..n + 1] == [a[0]] + a[1..][..n] && b[..n + 1] == [b[0]] + b[1..][..n];
        assert FirstDifference(a, b, n + 1);
      }
      if n: nat :| FirstDifference(a, b, n) {
        assert n > 0 && a[1..][..n - 1] == a[..n][1..] && b[1..][..n - 1] == b[..n][1..];
        assert FirstDifference(a[1..], b[1..], n - 1);
      }
    } else {
      DifferenceBehindStart(a, b);
      assert b != [] && a[0] < b[0] ==> FirstDifference(a, b, 0);
    }
  }

  lemma DifferenceBehindStart(a: Bytes, b: Bytes)
    ensures forall n: nat :: 0 < n && FirstDifference(a, b, n) ==> a[0] == b[0]
  {
    forall n: nat | 0 < n && FirstDifference(a, b, n) ensures a[0] == b[0] {
      assert a[..n][0] == b[..n][0];
    }
  }

  /** The strings agree before `n`, and there `a` has ended or has the smaller byte. */
  predicate FirstDifference(a: Bytes, b: Bytes, n: nat) {
    n <= |a| && n < |b| && a[..n] == b[..n] && (n == |a| || a[n] < b[n])
  }

  lemma {:induction false} LessIsTransitive(a: Bytes, b: Bytes, c: Bytes)
    requires Less(a, b) && Less(b, c)
    ensures Less(a, c)
    decreases |a|
  {
    if a != [] && a[0] == b[0] == c[0] { LessIsTransitive(a[1..], b[1..], c[1..]); }
  }

  lemma {:induction false} LessIsIrreflexive(a: Bytes)
    ensures !Less(a, a)
  {
    if a != [] { LessIsIrreflexive(a[1..]); }
  }

  lemma {:induction false} LessIsTotal(a: Bytes, b: Bytes)
    ensures Less(a, b) || a == b || Less(b, a)
    decreases |a|
  {
    if a != [] && b != [] && a[0] == b[0] {
      LessIsTotal(a[1..], b[1..]);
      assert a == [a[0]] + a[1..] && b == [b[0]] + b[1..];
    }
  }

  lemma LessIsAsymmetric(a: Bytes, b: Bytes)
    requires Less(a, b)
    ensures a != b && !Less(b, a)
  {
    LessIsIrreflexive(a);
    if Less(b, a) { LessIsTransitive(a, b, a); }
  }

  /** A common prefix does not matter. */
  lemma {:induction false} LessBehind(p: Bytes, a: Bytes, b: Bytes)
    ensures Less(p + a, p + b) <==> Less(a, b)
    decreases |p|
  {
    if p == [] {
      assert p + a == a && p + b == b;
    } else {
      assert (p + a)[1..] == p[1..] + a && (p + b)[1..] == p[1..] + b;
      LessBehind(p[1..], a, b);
    }
  }

  /** The half-open range from a prefix to the prefix closed by 0xFF holds exactly the
      extensions of the prefix that do not continue with 0xFF. */
  lemma {:induction false} PrefixRange(p: Bytes, k: Bytes)
    ensures !Less(k, p) && Less(k, p + [0xFF]) <==> p <= k && (|k| > |p| ==> k[|p|] < 0xFF)
    decreases |p|
  {
    if p == [] {
      assert p + [0xFF] == [0xFF];
      assert k != [] ==> !Less(k[1..], []);
    } else {
      assert (p + [0xFF])[1..] == p[1..] + [0xFF];
      if k != [] && k[0] == p[0] {
        PrefixRange(p[1..], k[1..]);
        assert p == [p[0]] + p[1..] && k == [k[0]] + k[1..];
      }
    }
  }

  // ----- Point operations -----

  ghost predicate Sorted(ks: Keyspace) {
    forall i, j :: 0 <= i < j < |ks| ==> Less(ks[i].key, ks[j].key)
  }

  function Get(ks: Keyspace, key: Bytes): Option<Bytes> {
    if ks == [] then None
    else if ks[0].key == key then Some(ks[0].value)
    else Get(ks[1..], key)
  }

  function Put(ks: Keyspace, key: Bytes, value: Bytes): Keyspace {
    if ks == [] then [Pair(key, value)]
    else if ks[0].key == key then [Pair(key, value)] + ks[1..]
    else if Less(key, ks[0].key) then [Pair(key, value)] + ks
    else [ks[0]] + Put(ks[1..], key, value)
  }

  lemma {:induction false} GetMeansMember(ks: Keyspace, p: Pair)
    requires Sorted(ks)
    ensures p in ks <==> Get(ks, p.key) == Some(p.value)
  {
    if ks != [] {
      GetMeansMember(ks[1..], p);
      forall i | 0 < i < |ks| ensures ks[i].key != ks[0].key {
        LessIsAsymmetric(ks[0].key, ks[i].key);
      }
      assert p in ks <==> p == ks[0] || p in ks[1..];
      assert p in ks[1..] ==> exists i :: 0 < i < |ks| && ks[i] == p;
    }
  }

  lemma {:induction false} PutKeys(ks: Keyspace, key: Bytes, value: Bytes, p: Pair)
    requires p in Put(ks, key, value)
    ensures p == Pair(key, value) || p in ks
  {
    if ks != [] && ks[0].key != key && !Less(key, ks[0].key) && p != ks[0] {
      PutKeys(ks[1..], key, value, p);
    }
  }

  lemma {:induction false} PutStaysSorted(ks: Keyspace, key: Bytes, value: Bytes)
    requires Sorted(ks)
    ensures Sorted(Put(ks, key, value))
  {
    if ks != [] {
      if ks[0].key == key {
      } else if Less(key, ks[0].key) {
        forall i | 0 < i < |ks| ensures Less(key, ks[i].key) {
          LessIsTransitive(key, ks[0].key, ks[i].key);
        }
      } else {
        LessIsTotal(key, ks[0].key);
        PutStaysSorted(ks[1..], key, value);
        var rest := Put(ks[1..], key, value);
        forall i | 0 <= i < |rest| ensures Less(ks[0].key, rest[i].key) {
          PutKeys(ks[1..], key, value, rest[i]);
          if rest[i] in ks[1..] {
            var j :| 0 <= j < |ks[1..]| && ks[1..][j] == rest[i];
            assert ks[j + 1] == rest[i];
          }
        }
      }
    }
  }

  lemma {:induction false} GetAfterPut(ks: Keyspace, key: Bytes, value: Bytes, k: Bytes)
    ensures Get(Put(ks, key, value), k) == if k == key then Some(value) else Get(ks, k)
  {
    if ks != [] {
      GetAfterPut(ks[1..], key, value, k);
    }
  }

  // ----- Ranges -----

  function Filter<T>(xs: seq<T>, want: T -> bool): (r: seq<T>)
  {
    if xs == [] then []
    else Filter(xs[..|xs| - 1], want) + if want(xs[|xs| - 1]) then [xs[|xs| - 1]] else []
  }

  lemma {:induction false} FilterMembers<T>(xs: seq<T>, want: T -> bool, x: T)
    ensures x in Filter(xs, want) <==> x in xs && want(x)
  {
    if xs != [] {
      var m := |xs| - 1;
      FilterMembers(xs[..m], want, x);
      assert xs == xs[..m] + [xs[m]];
    }
  }

  lemma {:induction false} FilterOfConcat<T>(a: seq<T>, b: seq<T>, want: T -> bool)
    ensures Filter(a + b, want) == Filter(a, want) + Filter(b, want)
  {
    if b == [] {
      assert a + b == a;
    } else {
      var m := |b| - 1;
      assert (a + b)[..|a + b| - 1] == a + b[..m];
      FilterOfConcat(a, b[..m], want);
    }
  }

  /** A filtered list is a part of the list in its order: `at` says where. */
  lemma {:induction false} FilterKeepsOrder<T>(xs: seq<T>, want: T -> bool) returns (at: seq<nat>)
    ensures |at| == |Filter(xs, want)|
    ensures forall i :: 0 <= i < |at| ==> at[i] < |xs| && Filter(xs, want)[i] == xs[at[i]]
    ensures forall i, j :: 0 <= i < j < |at| ==> at[i] < at[j]
  {
    if xs == [] {
      at := [];
    } else {
      var m := |xs| - 1;
      at := FilterKeepsOrder(xs[..m], want);
      var before := Filter(xs[..m], want);
      assert forall i :: 0 <= i < |at| ==> at[i] < m && before[i] == xs[at[i]];
      if want(xs[m]) { at := at + [m]; }
    }
  }

  function InRange(lo: Bytes, hi: Option<Bytes>): Pair -> bool {
    (p: Pair) => !Less(p.key, lo) && (hi.Some? ==> Less(p.key, hi.value))
  }

  /** Keys from `lo` on and, if there is an end, below it. */
  function Range(ks: Keyspace, lo: Bytes, hi: Option<Bytes>): Keyspace { Filter(ks, InRange(lo, hi)) }

  lemma RangeAscends(ks: Keyspace, lo: Bytes, hi: Option<Bytes>)
    requires Sorted(ks)
    ensures Sorted(Range(ks, lo, hi))
  {
    hide Less;
    var at := FilterKeepsOrder(ks, InRange(lo, hi));
  }
}
