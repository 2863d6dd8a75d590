/** Interleaving a separator between the items of a sequence.

    This is the one shape behind `Statement::join`, `Elements::join`,
    `join_statements` and the standard `Vec<String>::join`: the first item
    alone, then a separator before every further item. */
module Joins {

  /** The items of `xs` with `sep` between every adjacent pair. */
  function Interleave<T>(xs: seq<T>, sep: T): (r: seq<T>)
    ensures |r| == if |xs| == 0 then 0 else 2 * |xs| - 1
  {
    if |xs| <= 1 then xs else [xs[0], sep] + Interleave(xs[1..], sep)
  }

  /** Position `2k` holds the `k`-th item: the items keep their order. */
  lemma {:induction false} InterleaveItem<T>(xs: seq<T>, sep: T, k: nat)
    requires k < |xs|
    ensures Interleave(xs, sep)[2 * k] == xs[k]
  {
    if k > 0 {
      InterleaveItem(xs[1..], sep, k - 1);
      assert Interleave(xs, sep)[2 * k] == Interleave(xs[1..], sep)[2 * (k - 1)];
    }
  }

  /** Position `2k + 1` holds the separator. */
  lemma {:induction false} InterleaveSeparator<T>(xs: seq<T>, sep: T, k: nat)
    requires k + 1 < |xs|
    ensures Interleave(xs, sep)[2 * k + 1] == sep
  {
    if k > 0 {
      InterleaveSeparator(xs[1..], sep, k - 1);
      assert Interleave(xs, sep)[2 * k + 1] == Interleave(xs[1..], sep)[2 * (k - 1) + 1];
    }
  }

  /** Appending an item to a non-empty sequence appends the separator and the item. */
  lemma {:induction false} InterleaveSnoc<T>(xs: seq<T>, y: T, sep: T)
    requires |xs| > 0
    ensures Interleave(xs + [y], sep) == Interleave(xs, sep) + [sep, y]
  {
    if |xs| == 1 {
      assert xs + [y] == [xs[0], y];
      assert Interleave([y], sep) == [y];
    } else {
      assert (xs + [y])[1..] == xs[1..] + [y];
      InterleaveSnoc(xs[1..], y, sep);
    }
  }

  /** Every entry of the interleaving is an item or the separator. */
  lemma {:induction false} InterleaveMembers<T>(xs: seq<T>, sep: T)
    ensures forall y :: y in Interleave(xs, sep) ==> y in xs || y == sep
  {
    if |xs| > 1 {
      InterleaveMembers(xs[1..], sep);
      assert forall y :: y in xs[1..] ==> y in xs;
    }
  }

  /** Concatenation of a sequence of strings. */
  function Flatten(ss: seq<string>): (r: string)
    ensures ss == [] ==> r == ""
  {
    if ss == [] then "" else ss[0] + Flatten(ss[1..])
  }

  lemma {:induction false} FlattenAppend(a: seq<string>, b: seq<string>)
    ensures Flatten(a + b) == Flatten(a) + Flatten(b)
  {
    if a == [] {
      assert a + b == b;
    } else {
      assert (a + b)[1..] == a[1..] + b;
      FlattenAppend(a[1..], b);
    }
  }

  /** Two items with the separator between them. */
  lemma SpacedPair<T>(a: T, b: T, sep: T)
    ensures Interleave([a, b], sep) == [a, sep, b]
  {
    assert [a, b][1..] == [b];
    assert Interleave([b], sep) == [b];
  }

  /** Three items with the separator between neighbours. */
  lemma SpacedThree<T>(a: T, b: T, c: T, sep: T)
    ensures Interleave([a, b, c], sep) == [a, sep, b, sep, c]
  {
    assert [a, b, c][1..] == [b, c];
    SpacedPair(b, c, sep);
  }

  /** Concatenation regroups freely; stated once so that proofs about
      rendered text and built lists can regroup by a call instead of by
      comparing items. */
  lemma ConcatAssoc<T>(a: seq<T>, b: seq<T>, c: seq<T>)
    ensures a + b + c == a + (b + c)
  {
  }

  /** Short runs of strings, written out. */
  lemma FlattenSmall(a: string, b: string, c: string)
    ensures Flatten([a]) == a
    ensures Flatten([a, b]) == a + b
    ensures Flatten([a, b, c]) == a + b + c
  {
    assert [a][1..] == [];
    assert [a, b][1..] == [b] && [b][1..] == [];
    assert [a, b, c][1..] == [b, c] && [b, c][1..] == [c] && [c][1..] == [];
    assert Flatten([b, c]) == b + c;
    assert Flatten([a, b, c]) == a + (b + c);
  }

  lemma {:induction false} FlattenLength(ss: seq<string>, k: nat)
    requires forall i :: 0 <= i < |ss| ==> |ss[i]| >= k
    ensures |Flatten(ss)| >= k * |ss|
  {
    if ss != [] {
      FlattenLength(ss[1..], k);
    }
  }

  /** `Vec<String>::join(sep)`: the strings with `sep` between adjacent ones. */
  function JoinStrings(ss: seq<string>, sep: string): string
  {
    Flatten(Interleave(ss, sep))
  }

  lemma JoinStringsSmall(ss: seq<string>, sep: string)
    ensures ss == [] ==> JoinStrings(ss, sep) == ""
    ensures |ss| == 1 ==> JoinStrings(ss, sep) == ss[0]
  {
    if |ss| == 1 {
      assert Flatten([ss[0]]) == ss[0] + Flatten([]);
    }
  }

  /** Non-empty strings join to the empty string only when there are none. */
  lemma JoinStringsEmpty(ss: seq<string>, sep: string)
    requires forall i :: 0 <= i < |ss| ==> ss[i] != ""
    ensures JoinStrings(ss, sep) == "" <==> ss == []
  {
    if ss != [] {
      InterleaveItem(ss, sep, 0);
      assert |Flatten(Interleave(ss, sep))| >= |ss[0]|;
    }
  }

  /** Joining one more string adds the separator and that string. */
  lemma JoinStringsSnoc(ss: seq<string>, s: string, sep: string)
    requires |ss| > 0
    ensures JoinStrings(ss + [s], sep) == JoinStrings(ss, sep) + sep + s
  {
    InterleaveSnoc(ss, s, sep);
    FlattenAppend(Interleave(ss, sep), [sep, s]);
    assert Flatten([sep, s]) == sep + (s + Flatten([]));
  }
}
