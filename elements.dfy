/** `Elements<Var>`: the list of elements that builders append to, and its
    separator join. */
module ElementLists {
  import opened Formatter
  import opened Joins
  import opened Statements
  import opened Document

  datatype Elements<V> = Elements(elements: seq<Element<V>>)

  /** `Elements::new`. */
  function New<V>(): (r: Elements<V>)
    ensures IsEmpty(r)
  {
    Elements([])
  }

  /** `Elements::is_empty`. */
  predicate IsEmpty<V>(es: Elements<V>)
  {
    |es.elements| == 0
  }

  /** `Elements::push`: one more element at the end, the others untouched. */
  function Push<V>(es: Elements<V>, e: Element<V>): (r: Elements<V>)
    ensures !IsEmpty(r) && |r.elements| == |es.elements| + 1
    ensures r.elements[..|es.elements|] == es.elements && r.elements[|es.elements|] == e
  {
    Elements(es.elements + [e])
  }

  /** `Elements::push_nested`: appends the element wrapped in `Nested`. */
  function PushNested<V>(es: Elements<V>, e: Element<V>): (r: Elements<V>)
    ensures |r.elements| == |es.elements| + 1
    ensures r.elements[..|es.elements|] == es.elements && r.elements[|es.elements|] == Nested(e)
  {
    Push(es, Nested(e))
  }

  /** `From<Elements> for Element`: an `Inner` of the same children. */
  function IntoElement<V>(es: Elements<V>): (r: Element<V>)
    ensures r.Inner? && r.elements == es.elements
  {
    Inner(es.elements)
  }

  /** `Elements::join`: the elements with the separator between neighbours. */
  method Join<V>(es: Elements<V>, separator: Element<V>) returns (r: Elements<V>)
    ensures r.elements == Interleave(es.elements, separator)
  {
    if |es.elements| == 0 {
      return New();
    }
    r := Push(New(), es.elements[0]);
    var i := 1;
    while i < |es.elements|
      invariant 1 <= i <= |es.elements|
      invariant r.elements == Interleave(es.elements[..i], separator)
    {
      InterleaveSnoc(es.elements[..i], es.elements[i], separator);
      assert es.elements[..i + 1] == es.elements[..i] + [es.elements[i]];
      PushTwo(r, separator, es.elements[i]);
      r := Push(Push(r, separator), es.elements[i]);
      i := i + 1;
    }
    assert es.elements[..i] == es.elements;
  }

  /** Two pushes append both elements, in order. */
  lemma PushTwo<V>(es: Elements<V>, a: Element<V>, b: Element<V>)
    ensures Push(Push(es, a), b).elements == es.elements + [a, b]
  {
  }

  /** The joined list: empty for none, the element alone for one, and for
      `n` elements `2n - 1` entries with the separator between neighbours. */
  lemma JoinShape<V>(es: Elements<V>, separator: Element<V>)
    ensures |es.elements| <= 1 ==> Interleave(es.elements, separator) == es.elements
    ensures |es.elements| >= 1 ==> |Interleave(es.elements, separator)| == 2 * |es.elements| - 1
    ensures forall k :: 0 <= k < |es.elements| ==> Interleave(es.elements, separator)[2 * k] == es.elements[k]
    ensures forall k :: 0 <= k < |es.elements| - 1 ==> Interleave(es.elements, separator)[2 * k + 1] == separator
  {
    forall k | 0 <= k < |es.elements| ensures Interleave(es.elements, separator)[2 * k] == es.elements[k] {
      InterleaveItem(es.elements, separator, k);
    }
    forall k | 0 <= k < |es.elements| - 1 ensures Interleave(es.elements, separator)[2 * k + 1] == separator {
      InterleaveSeparator(es.elements, separator, k);
    }
  }

  /** A `Spacing` and then a line, after a line of content. */
  lemma SpacedLineStep<V, X>(t: string, last: string, leaf: Leaf<V, X>, x: X)
    requires last != ""
    ensures Exec(FormatterState(0, false, t), InnerTrace([Spacing, Literal(last)], leaf, x))
         == FormatterState(0, false, t + "\n\n" + last)
  {
    var s1 := FormatterState(0, false, t);
    var l: Element<V> := Literal(last);
    ExecInner(s1, Spacing, [l], leaf, x);
    assert [Spacing, l] == [Spacing] + [l];
    SpacingEffect(s1, leaf, x);
    var s2 := FormatterState(0, true, t + "\n\n");
    InnerTraceOne(l, leaf, x);
    LiteralEffect(s2, last, leaf, x);
    assert Padding(0) == "";
  }

  /** Lines joined with `Spacing` render with exactly one empty line
      between neighbours. */
  lemma {:induction false} SpacedLines<V, X>(ss: seq<string>, leaf: Leaf<V, X>, x: X)
    requires forall i :: 0 <= i < |ss| ==> ss[i] != ""
    ensures forall i :: 0 <= i < |Interleave(Literals<V>(ss), Spacing)| ==> VarsOf(Interleave(Literals<V>(ss), Spacing)[i]) == {}
    ensures Exec(Fresh, InnerTrace(Interleave(Literals<V>(ss), Spacing), leaf, x)) == FormatterState(0, ss == [], JoinStrings(ss, "\n\n"))
    decreases |ss|
  {
    SpacedVars<V>(ss);
    JoinStringsSmall(ss, "\n\n");
    if |ss| == 1 {
      var l: Element<V> := Literal(ss[0]);
      assert Literals<V>(ss) == [l];
      InnerTraceOne(l, leaf, x);
      LiteralEffect(Fresh, ss[0], leaf, x);
      assert "" + "" + Padding(0) + ss[0] == ss[0];
    } else if |ss| > 1 {
      var init, last := ss[..|ss| - 1], ss[|ss| - 1];
      assert ss == init + [last];
      SpacedLines<V, X>(init, leaf, x);
      SpacedLinesStep<V, X>(init, last, leaf, x);
    }
  }

  /** Lines and `Spacing`s hold no variables. */
  lemma SpacedVars<V>(ss: seq<string>)
    ensures forall i :: 0 <= i < |Interleave(Literals<V>(ss), Spacing)| ==> VarsOf(Interleave(Literals<V>(ss), Spacing)[i]) == {}
  {
    var ls := Interleave(Literals<V>(ss), Spacing);
    InterleaveMembers(Literals<V>(ss), Spacing);
    forall i | 0 <= i < |ls| ensures VarsOf(ls[i]) == {} {
      assert ls[i] in ls;
    }
  }

  /** The induction step of `SpacedLines`: one more line after the others. */
  lemma SpacedLinesStep<V, X>(init: seq<string>, last: string, leaf: Leaf<V, X>, x: X)
    requires init != [] && last != ""
    requires forall i :: 0 <= i < |Interleave(Literals<V>(init), Spacing)| ==> VarsOf(Interleave(Literals<V>(init), Spacing)[i]) == {}
    requires Exec(Fresh, InnerTrace(Interleave(Literals<V>(init), Spacing), leaf, x)) == FormatterState(0, false, JoinStrings(init, "\n\n"))
    ensures forall i :: 0 <= i < |Interleave(Literals<V>(init + [last]), Spacing)| ==> VarsOf(Interleave(Literals<V>(init + [last]), Spacing)[i]) == {}
    ensures Exec(Fresh, InnerTrace(Interleave(Literals<V>(init + [last]), Spacing), leaf, x)) == FormatterState(0, false, JoinStrings(init + [last], "\n\n"))
  {
    SpacedVars<V>(init + [last]);
    var li := Interleave(Literals<V>(init), Spacing);
    var l: Element<V> := Literal(last);
    assert Literals<V>(init + [last]) == Literals<V>(init) + [l];
    InterleaveSnoc(Literals<V>(init), l, Spacing);
    InnerTraceAppend(li, [Spacing, l], leaf, x);
    ExecAppend(Fresh, InnerTrace(li, leaf, x), InnerTrace([Spacing, l], leaf, x));
    SpacedLineStep(JoinStrings(init, "\n\n"), last, leaf, x);
    JoinStringsSnoc(init, last, "\n\n");
  }
}
