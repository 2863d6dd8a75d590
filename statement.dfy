/** `Statement<Var>`: one line's worth of variables, formatted side by side.

    The variables themselves are opaque here.  Whatever formats one is a
    `Leaf`: given a variable, a depth and the adapter's extra state it yields
    the formatter commands that variable performs.  A leaf may be partial
    (the Java leaf recurses into elements), so every formatting function asks
    for the leaf to be defined on the variables it meets. */
module Statements {
  import opened Formatter
  import opened Joins

  datatype Statement<V> = Statement(parts: seq<V>)

  type Leaf<!V, !X> = (V, nat, X) --> seq<Cmd>

  /** `leaf` can format every variable of `vs`, at any depth, with `x`. */
  ghost predicate Defined<V, X>(leaf: Leaf<V, X>, vs: set<V>, x: X)
  {
    forall v, d: nat :: v in vs ==> leaf.requires(v, d, x)
  }

  /** `leaf` only writes text for the variables of `vs`: it never breaks a
      line or changes the indentation. */
  ghost predicate Writes<V, X>(leaf: Leaf<V, X>, vs: set<V>, x: X)
    requires Defined(leaf, vs, x)
  {
    forall v, d: nat :: v in vs ==> WritesOnly(leaf(v, d, x))
  }

  /** `leaf` leaves the indentation level as it found it for the variables
      of `vs`: it may break lines, and indent as long as it unindents again. */
  ghost predicate KeepsIndent<V, X>(leaf: Leaf<V, X>, vs: set<V>, x: X)
    requires Defined(leaf, vs, x)
  {
    forall v, d: nat, t: FormatterState :: v in vs ==> Exec(t, leaf(v, d, x)).indent == t.indent
  }

  /** A leaf that only writes keeps the indentation level. */
  lemma WritesKeepIndent<V, X>(leaf: Leaf<V, X>, vs: set<V>, x: X)
    requires Defined(leaf, vs, x) && Writes(leaf, vs, x)
    ensures KeepsIndent(leaf, vs, x)
  {
    forall v, d: nat, t: FormatterState | v in vs ensures Exec(t, leaf(v, d, x)).indent == t.indent {
      WritesEffect(t, leaf(v, d, x));
    }
  }

  ghost function Vars<V>(st: Statement<V>): set<V>
  {
    set v | v in st.parts
  }

  /** `Statement::new`. */
  function New<V>(): (r: Statement<V>)
    ensures |r.parts| == 0
  {
    Statement([])
  }

  /** `Statement::push`: one more part at the end, the others untouched. */
  function Push<V>(st: Statement<V>, v: V): (r: Statement<V>)
    ensures |r.parts| == |st.parts| + 1
    ensures r.parts[..|st.parts|] == st.parts && r.parts[|st.parts|] == v
  {
    Statement(st.parts + [v])
  }

  /** `From<String> for Statement`: a statement of the one converted string. */
  function FromString<V>(s: string, into: string -> V): (r: Statement<V>)
    ensures r.parts == [into(s)]
  {
    Statement([into(s)])
  }

  /** `From<Vec<S>> for Statement`: the converted items, pushed in order. */
  method FromSeq<S, V>(values: seq<S>, into: S -> V) returns (r: Statement<V>)
    ensures |r.parts| == |values|
    ensures forall i :: 0 <= i < |values| ==> r.parts[i] == into(values[i])
  {
    r := New();
    for i := 0 to |values|
      invariant |r.parts| == i
      invariant forall k :: 0 <= k < i ==> r.parts[k] == into(values[k])
    {
      r := Push(r, into(values[i]));
    }
  }

  /** `Statement::join`: the parts with the separator between neighbours. */
  method Join<V>(st: Statement<V>, separator: V) returns (r: Statement<V>)
    ensures r.parts == Interleave(st.parts, separator)
  {
    if |st.parts| == 0 {
      return New();
    }
    r := Push(New(), st.parts[0]);
    var i := 1;
    while i < |st.parts|
      invariant 1 <= i <= |st.parts|
      invariant r.parts == Interleave(st.parts[..i], separator)
    {
      InterleaveSnoc(st.parts[..i], st.parts[i], separator);
      assert st.parts[..i + 1] == st.parts[..i] + [st.parts[i]];
      r := Push(Push(r, separator), st.parts[i]);
      i := i + 1;
    }
    assert st.parts[..i] == st.parts;
  }

  /** The joined statement: `2n - 1` parts for `n >= 1`, the originals in
      order at the even positions and the separator at the odd ones. */
  lemma JoinShape<V>(st: Statement<V>, separator: V)
    ensures |st.parts| == 0 ==> Interleave(st.parts, separator) == []
    ensures |st.parts| == 1 ==> Interleave(st.parts, separator) == st.parts
    ensures |st.parts| >= 1 ==> |Interleave(st.parts, separator)| == 2 * |st.parts| - 1
    ensures forall k :: 0 <= k < |st.parts| ==> Interleave(st.parts, separator)[2 * k] == st.parts[k]
    ensures forall k :: 0 <= k < |st.parts| - 1 ==> Interleave(st.parts, separator)[2 * k + 1] == separator
  {
    forall k | 0 <= k < |st.parts| ensures Interleave(st.parts, separator)[2 * k] == st.parts[k] {
      InterleaveItem(st.parts, separator, k);
    }
    forall k | 0 <= k < |st.parts| - 1 ensures Interleave(st.parts, separator)[2 * k + 1] == separator {
      InterleaveSeparator(st.parts, separator, k);
    }
  }

  /** What `Statement::format` does: each part in order, all with the same
      depth and extra. */
  function Trace<V, X>(parts: seq<V>, leaf: Leaf<V, X>, depth: nat, x: X): seq<Cmd>
    requires forall i :: 0 <= i < |parts| ==> leaf.requires(parts[i], depth, x)
  {
    if parts == [] then [] else leaf(parts[0], depth, x) + Trace(parts[1..], leaf, depth, x)
  }

  lemma {:induction false} TraceAppend<V, X>(a: seq<V>, b: seq<V>, leaf: Leaf<V, X>, depth: nat, x: X)
    requires forall i :: 0 <= i < |a| ==> leaf.requires(a[i], depth, x)
    requires forall i :: 0 <= i < |b| ==> leaf.requires(b[i], depth, x)
    ensures forall i :: 0 <= i < |a + b| ==> leaf.requires((a + b)[i], depth, x)
    ensures Trace(a + b, leaf, depth, x) == Trace(a, leaf, depth, x) + Trace(b, leaf, depth, x)
  {
    assert forall i :: 0 <= i < |a + b| ==> (a + b)[i] == if i < |a| then a[i] else b[i - |a|];
    if a == [] {
      assert a + b == b;
    } else {
      assert (a + b)[1..] == a[1..] + b;
      TraceAppend(a[1..], b, leaf, depth, x);
      ConcatAssoc(leaf(a[0], depth, x), Trace(a[1..], leaf, depth, x), Trace(b, leaf, depth, x));
    }
  }

  /** Pushing a part adds that part's commands after the others. */
  lemma PushTrace<V, X>(st: Statement<V>, v: V, leaf: Leaf<V, X>, depth: nat, x: X)
    requires forall i :: 0 <= i < |st.parts| ==> leaf.requires(st.parts[i], depth, x)
    requires leaf.requires(v, depth, x)
    ensures forall i :: 0 <= i < |Push(st, v).parts| ==> leaf.requires(Push(st, v).parts[i], depth, x)
    ensures Trace(Push(st, v).parts, leaf, depth, x) == Trace(st.parts, leaf, depth, x) + leaf(v, depth, x)
  {
    TraceAppend(st.parts, [v], leaf, depth, x);
    assert Trace([v], leaf, depth, x) == leaf(v, depth, x) + Trace([], leaf, depth, x);
  }

  /** A statement of writing parts performs only writes. */
  lemma {:induction false} TraceWrites<V, X>(parts: seq<V>, leaf: Leaf<V, X>, depth: nat, x: X)
    requires forall i :: 0 <= i < |parts| ==> leaf.requires(parts[i], depth, x)
    requires forall i :: 0 <= i < |parts| ==> WritesOnly(leaf(parts[i], depth, x))
    ensures WritesOnly(Trace(parts, leaf, depth, x))
  {
    if parts != [] {
      TraceWrites(parts[1..], leaf, depth, x);
      var h, t := leaf(parts[0], depth, x), Trace(parts[1..], leaf, depth, x);
      assert forall i :: 0 <= i < |h + t| ==> (h + t)[i] == if i < |h| then h[i] else t[i - |h|];
    }
  }

  /** A statement of parts that keep the indentation level keeps it. */
  lemma {:induction false} TraceIndent<V, X>(parts: seq<V>, leaf: Leaf<V, X>, depth: nat, x: X, t: FormatterState)
    requires forall i :: 0 <= i < |parts| ==> leaf.requires(parts[i], depth, x)
    requires forall i, u: FormatterState :: 0 <= i < |parts| ==> Exec(u, leaf(parts[i], depth, x)).indent == u.indent
    ensures Exec(t, Trace(parts, leaf, depth, x)).indent == t.indent
  {
    if parts != [] {
      var h := leaf(parts[0], depth, x);
      TraceIndent(parts[1..], leaf, depth, x, Exec(t, h));
      ExecAppend(t, h, Trace(parts[1..], leaf, depth, x));
      assert Exec(t, h).indent == t.indent;
    }
  }

  /** `Statement::format`: formats each part in turn. */
  method Format<V, X>(st: Statement<V>, fmt: ElementFormatter, leaf: Leaf<V, X>, depth: nat, x: X)
    requires forall i :: 0 <= i < |st.parts| ==> leaf.requires(st.parts[i], depth, x)
    modifies fmt
    ensures fmt.State() == Exec(old(fmt.State()), Trace(st.parts, leaf, depth, x))
  {
    for i := 0 to |st.parts|
      invariant Exec(old(fmt.State()), Trace(st.parts, leaf, depth, x))
             == Exec(fmt.State(), Trace(st.parts[i..], leaf, depth, x))
    {
      assert st.parts[i..][1..] == st.parts[i + 1..];
      ExecAppend(fmt.State(), leaf(st.parts[i], depth, x), Trace(st.parts[i + 1..], leaf, depth, x));
      fmt.Run(leaf(st.parts[i], depth, x));
    }
  }
}
