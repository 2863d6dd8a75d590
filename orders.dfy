/** The orderings that ordered sets (`BTreeSet`, `BTreeMap`) iterate in.

    Rust's `Ord` on `String` compares character by character (code point
    order, which for UTF-8 is byte order); a derived `Ord` on a record or a
    tuple compares field by field. Records of strings are compared here
    through a key, a sequence of strings compared item by item. */
module Orders {
  import opened Wrappers

  /** Lexicographic order on strings; a proper prefix comes first. */
  predicate StrLess(a: string, b: string)
  {
    if |a| == 0 then |b| > 0
    else if |b| == 0 then false
    else a[0] < b[0] || (a[0] == b[0] && StrLess(a[1..], b[1..]))
  }

  /** Lexicographic order on keys, item by item with `StrLess`. */
  predicate KeyLess(a: seq<string>, b: seq<string>)
  {
    if |a| == 0 then |b| > 0
    else if |b| == 0 then false
    else StrLess(a[0], b[0]) || (a[0] == b[0] && KeyLess(a[1..], b[1..]))
  }

  ghost predicate StrictTotal<T(!new)>(less: (T, T) -> bool)
  {
    && (forall x :: !less(x, x))
    && (forall x, y, z :: less(x, y) && less(y, z) ==> less(x, z))
    && (forall x, y :: x != y ==> less(x, y) || less(y, x))
  }

  lemma {:induction false} StrIrreflexive(a: string)
    ensures !StrLess(a, a)
  {
    if |a| > 0 {
      StrIrreflexive(a[1..]);
    }
  }

  lemma {:induction false} StrTransitive(a: string, b: string, c: string)
    requires StrLess(a, b) && StrLess(b, c)
    ensures StrLess(a, c)
  {
    if |a| > 0 && |b| > 0 && |c| > 0 && a[0] == b[0] == c[0] {
      StrTransitive(a[1..], b[1..], c[1..]);
    }
  }

  lemma {:induction false} StrConnected(a: string, b: string)
    requires a != b
    ensures StrLess(a, b) || StrLess(b, a)
  {
    if |a| > 0 && |b| > 0 && a[0] == b[0] {
      assert a == [a[0]] + a[1..] && b == [b[0]] + b[1..];
      StrConnected(a[1..], b[1..]);
    }
  }

  lemma StrLessIsStrictTotal()
    ensures StrictTotal(StrLess)
  {
    forall a ensures !StrLess(a, a) { StrIrreflexive(a); }
    forall a, b, c | StrLess(a, b) && StrLess(b, c) ensures StrLess(a, c) {
      StrTransitive(a, b, c);
    }
    forall a, b | a != b ensures StrLess(a, b) || StrLess(b, a) { StrConnected(a, b); }
  }

  lemma {:induction false} KeyIrreflexive(a: seq<string>)
    ensures !KeyLess(a, a)
  {
    if |a| > 0 {
      StrIrreflexive(a[0]);
      KeyIrreflexive(a[1..]);
    }
  }

  lemma {:induction false} KeyTransitive(a: seq<string>, b: seq<string>, c: seq<string>)
    requires KeyLess(a, b) && KeyLess(b, c)
    ensures KeyLess(a, c)
  {
    if |a| > 0 && |b| > 0 && |c| > 0 {
      if a[0] == b[0] == c[0] {
        StrIrreflexive(a[0]);
        KeyTransitive(a[1..], b[1..], c[1..]);
      } else if StrLess(a[0], b[0]) && StrLess(b[0], c[0]) {
        StrTransitive(a[0], b[0], c[0]);
      }
    }
  }

  lemma {:induction false} KeyConnected(a: seq<string>, b: seq<string>)
    requires a != b
    ensures KeyLess(a, b) || KeyLess(b, a)
  {
    if |a| > 0 && |b| > 0 {
      if a[0] == b[0] {
        assert a == [a[0]] + a[1..] && b == [b[0]] + b[1..];
        KeyConnected(a[1..], b[1..]);
      } else {
        StrConnected(a[0], b[0]);
      }
    }
  }

  lemma KeyLessIsStrictTotal()
    ensures StrictTotal(KeyLess)
  {
    forall a ensures !KeyLess(a, a) { KeyIrreflexive(a); }
    forall a, b, c | KeyLess(a, b) && KeyLess(b, c) ensures KeyLess(a, c) {
      KeyTransitive(a, b, c);
    }
    forall a, b | a != b ensures KeyLess(a, b) || KeyLess(b, a) { KeyConnected(a, b); }
  }

  /** Keys of two items each are compared on the first and then on the second. */
  lemma KeyLessPair(a1: string, a2: string, b1: string, b2: string)
    ensures KeyLess([a1, a2], [b1, b2]) <==> StrLess(a1, b1) || (a1 == b1 && StrLess(a2, b2))
  {
    assert [a1, a2][1..] == [a2] && [b1, b2][1..] == [b2];
    assert [a2][1..] == [] && [b2][1..] == [];
  }

  /** The items of `xs` are strictly ascending. */
  ghost predicate SortedBy<T>(xs: seq<T>, less: (T, T) -> bool)
  {
    forall i, j :: 0 <= i < j < |xs| ==> less(xs[i], xs[j])
  }

  ghost predicate IsLeast<T>(m: T, s: set<T>, less: (T, T) -> bool)
  {
    m in s && forall y :: y in s && y != m ==> less(m, y)
  }

  lemma {:induction false} LeastExists<T(!new)>(s: set<T>, less: (T, T) -> bool)
    requires s != {} && StrictTotal(less)
    ensures exists m :: IsLeast(m, s, less)
    decreases s
  {
    var x :| x in s;
    if s != {x} {
      LeastExists(s - {x}, less);
      var m :| IsLeast(m, s - {x}, less);
      if less(m, x) {
        assert IsLeast(m, s, less);
      } else {
        assert IsLeast(x, s, less);
      }
    } else {
      assert IsLeast(x, s, less);
    }
  }

  /** The iteration order of an ordered set: its items, strictly ascending. */
  ghost function SortedSeq<T(!new)>(s: set<T>, less: (T, T) -> bool): (r: seq<T>)
    requires StrictTotal(less)
    ensures SortedBy(r, less)
    ensures forall x :: x in r <==> x in s
    ensures |r| == |s|
    decreases s
  {
    if s == {} then []
    else
      LeastExists(s, less);
      var m :| IsLeast(m, s, less);
      [m] + SortedSeq(s - {m}, less)
  }

  lemma LeastUnique<T(!new)>(m1: T, m2: T, s: set<T>, less: (T, T) -> bool)
    requires StrictTotal(less) && IsLeast(m1, s, less) && IsLeast(m2, s, less)
    ensures m1 == m2
  {
  }

  lemma SortedHeadIsLeast<T>(a: seq<T>, less: (T, T) -> bool)
    requires SortedBy(a, less) && a != []
    ensures IsLeast(a[0], (set x | x in a), less)
  {
    forall y | y in a && y != a[0] ensures less(a[0], y) {
      var k :| 0 <= k < |a| && a[k] == y;
    }
  }

  /** An ascending sequence is determined by its items. */
  lemma {:induction false} SortedUnique<T(!new)>(a: seq<T>, b: seq<T>, less: (T, T) -> bool)
    requires StrictTotal(less)
    requires SortedBy(a, less) && SortedBy(b, less)
    requires forall x :: x in a <==> x in b
    ensures a == b
  {
    assert a != [] ==> a[0] in b;
    assert b != [] ==> b[0] in a;
    if a != [] && b != [] {
      var items := set x | x in a;
      SortedHeadIsLeast(a, less);
      SortedHeadIsLeast(b, less);
      assert IsLeast(b[0], items, less);
      LeastUnique(a[0], b[0], items, less);
      forall x ensures x in a[1..] <==> x in b[1..] {
        if x in a[1..] {
          var i :| 0 <= i < |a[1..]| && a[1..][i] == x;
          assert a[i + 1] == x && less(a[0], x);
          assert x in a && x in b;
          var j :| 0 <= j < |b| && b[j] == x;
          assert j != 0;
          assert b[1..][j - 1] == x;
        }
        if x in b[1..] {
          var j :| 0 <= j < |b[1..]| && b[1..][j] == x;
          assert b[j + 1] == x && less(b[0], x);
          assert x in b && x in a;
          var i :| 0 <= i < |a| && a[i] == x;
          assert i != 0;
          assert a[1..][i - 1] == x;
        }
      }
      SortedUnique(a[1..], b[1..], less);
      assert a == [a[0]] + a[1..] && b == [b[0]] + b[1..];
    }
  }

  /** The iteration order of a strictly ascending sequence's set: itself. */
  lemma SortedSeqOfSorted<T(!new)>(xs: seq<T>, less: (T, T) -> bool)
    requires StrictTotal(less) && SortedBy(xs, less)
    ensures SortedSeq((set x | x in xs), less) == xs
  {
    SortedUnique(SortedSeq((set x | x in xs), less), xs, less);
  }

  /** A `for` loop over an ordered set: the items, visiting the least one
      not yet visited each time.  It meets the set's iteration order. */
  method SortedList<T(==, !new)>(s: set<T>, less: (T, T) -> bool) returns (r: seq<T>)
    requires StrictTotal(less)
    ensures r == SortedSeq(s, less)
  {
    r := [];
    var rest := s;
    while rest != {}
      invariant SortedBy(r, less)
      invariant rest <= s
      invariant forall x :: x in r <==> x in s && x !in rest
      invariant forall x, y :: x in r && y in rest ==> less(x, y)
      decreases rest
    {
      LeastExists(rest, less);
      var m :| m in rest && forall y :: y in rest && y != m ==> less(m, y);
      r := r + [m];
      rest := rest - {m};
    }
    SortedUnique(r, SortedSeq(s, less), less);
  }

  /** Rust's derived `Ord` on `Option<String>`: `None` first, then the
      values in string order. */
  predicate OptionLess(a: Option<string>, b: Option<string>)
  {
    if a.None? then b.Some? else b.Some? && StrLess(a.value, b.value)
  }

  lemma OptionLessIsStrictTotal()
    ensures StrictTotal(OptionLess)
  {
    forall a: Option<string> ensures !OptionLess(a, a) {
      if a.Some? { StrIrreflexive(a.value); }
    }
    forall a: Option<string>, b: Option<string>, c: Option<string> | OptionLess(a, b) && OptionLess(b, c)
      ensures OptionLess(a, c)
    {
      if a.Some? { StrTransitive(a.value, b.value, c.value); }
    }
    forall a: Option<string>, b: Option<string> | a != b ensures OptionLess(a, b) || OptionLess(b, a) {
      if a.Some? && b.Some? { StrConnected(a.value, b.value); }
    }
  }

  /** Rust's derived `Ord` on a pair: the first components, then the second. */
  predicate PairLess(a: (string, string), b: (string, string))
  {
    StrLess(a.0, b.0) || (a.0 == b.0 && StrLess(a.1, b.1))
  }

  lemma PairLessIsStrictTotal()
    ensures StrictTotal(PairLess)
  {
    forall a: (string, string) ensures !PairLess(a, a) {
      StrIrreflexive(a.0);
      StrIrreflexive(a.1);
    }
    forall a: (string, string), b: (string, string), c: (string, string) | PairLess(a, b) && PairLess(b, c)
      ensures PairLess(a, c)
    {
      if StrLess(a.0, b.0) && StrLess(b.0, c.0) { StrTransitive(a.0, b.0, c.0); }
      if a.0 == b.0 == c.0 && StrLess(a.1, b.1) && StrLess(b.1, c.1) { StrTransitive(a.1, b.1, c.1); }
    }
    forall a: (string, string), b: (string, string) | a != b ensures PairLess(a, b) || PairLess(b, a) {
      if a.0 != b.0 { StrConnected(a.0, b.0); } else { StrConnected(a.1, b.1); }
    }
  }

  /** The iteration order of an ordered set of string pairs: ascending
      under `PairLess`, each member once. */
  ghost function PairOrder(s: set<(string, string)>): (r: seq<(string, string)>)
    ensures SortedBy(r, PairLess) && forall x :: x in r <==> x in s
  {
    PairLessIsStrictTotal();
    SortedSeq(s, PairLess)
  }
}
