/** `Element<Var>`, the language-neutral document tree, and its renderer.

    `Trace` is what `Element::format` asks of the formatter, command by
    command; `Format` is the recursive procedure itself, driving an
    `ElementFormatter`, and is proved to perform exactly that trace. */
module Document {
  import opened Formatter
  import opened Joins
  import opened Statements

  datatype Element<V> =
    | Push(statement: Statement<V>)
    | Concat(statement: Statement<V>)
    | Literal(line: string)
    | Inner(elements: seq<Element<V>>)
    | Nested(element: Element<V>)
    | Spacing

  /** The variables that occur in a tree. */
  ghost function VarsOf<V>(e: Element<V>): set<V>
    decreases e
  {
    match e
    case Push(st) => Vars(st)
    case Concat(st) => Vars(st)
    case Literal(_) => {}
    case Inner(es) => set c, v | c in es && v in VarsOf(c) :: v
    case Nested(c) => VarsOf(c)
    case Spacing => {}
  }

  /** Every child of a tree holds only variables of the tree. */
  lemma ChildVars<V>(e: Element<V>, c: Element<V>)
    requires (e.Inner? && c in e.elements) || (e.Nested? && c == e.element)
    ensures VarsOf(c) <= VarsOf(e)
  {
  }

  /** What `Element::format` performs, command by command. */
  function Trace<V, X>(e: Element<V>, leaf: Leaf<V, X>, x: X): seq<Cmd>
    requires Defined(leaf, VarsOf(e), x)
    decreases e
  {
    match e
    case Push(st) => [NewLineUnlessEmpty] + Statements.Trace(st.parts, leaf, 0, x)
    case Concat(st) => Statements.Trace(st.parts, leaf, 0, x)
    case Literal(line) => [NewLineUnlessEmpty, Write(line)]
    case Inner(es) => InnerTrace(es, leaf, x)
    case Nested(c) => [NewLineUnlessEmpty, Indent] + Trace(c, leaf, x) + [Unindent]
    case Spacing => [NewLineUnlessEmpty, NewLine]
  }

  /** The children of an `Inner`, left to right. */
  function InnerTrace<V, X>(es: seq<Element<V>>, leaf: Leaf<V, X>, x: X): seq<Cmd>
    requires forall i :: 0 <= i < |es| ==> Defined(leaf, VarsOf(es[i]), x)
    decreases es
  {
    if es == [] then [] else Trace(es[0], leaf, x) + InnerTrace(es[1..], leaf, x)
  }

  /** The text a tree renders to on a fresh formatter. */
  function Render<V, X>(e: Element<V>, leaf: Leaf<V, X>, x: X): string
    requires Defined(leaf, VarsOf(e), x)
  {
    Exec(Fresh, Trace(e, leaf, x)).out
  }

  /** `Element::format`. */
  method Format<V, X>(e: Element<V>, fmt: ElementFormatter, leaf: Leaf<V, X>, x: X)
    requires Defined(leaf, VarsOf(e), x)
    modifies fmt
    ensures fmt.State() == Exec(old(fmt.State()), Trace(e, leaf, x))
    decreases e
  {
    var s0 := fmt.State();
    match e
    case Push(st) =>
      fmt.NewLineUnlessEmpty();
      Statements.Format(st, fmt, leaf, 0, x);
      ExecAppend(s0, [NewLineUnlessEmpty], Statements.Trace(st.parts, leaf, 0, x));
    case Concat(st) =>
      Statements.Format(st, fmt, leaf, 0, x);
    case Literal(line) =>
      fmt.NewLineUnlessEmpty();
      fmt.WriteStr(line);
      ExecAppend(s0, [NewLineUnlessEmpty], [Write(line)]);
    case Inner(es) =>
      for i := 0 to |es|
        invariant Exec(s0, InnerTrace(es, leaf, x)) == Exec(fmt.State(), InnerTrace(es[i..], leaf, x))
      {
        assert es[i..][0] == es[i] && es[i..][1..] == es[i + 1..];
        ChildVars(e, es[i]);
        ExecAppend(fmt.State(), Trace(es[i], leaf, x), InnerTrace(es[i + 1..], leaf, x));
        Format(es[i], fmt, leaf, x);
      }
    case Nested(c) =>
      fmt.NewLineUnlessEmpty();
      fmt.Indent();
      var s1 := fmt.State();
      Format(c, fmt, leaf, x);
      fmt.Unindent();
      ExecAppend(s0, [NewLineUnlessEmpty, Indent], Trace(c, leaf, x));
      ExecAppend(s0, [NewLineUnlessEmpty, Indent] + Trace(c, leaf, x), [Unindent]);
    case Spacing =>
      fmt.NewLineUnlessEmpty();
      fmt.NewLine();
      ExecAppend(s0, [NewLineUnlessEmpty], [NewLine]);
  }

  /** `Element::to_string`: renders on a fresh formatter with the adapter's
      default extra; no newline is added at the end. */
  method ToString<V, X>(e: Element<V>, leaf: Leaf<V, X>, default: X) returns (s: string)
    requires Defined(leaf, VarsOf(e), default)
    ensures s == Render(e, leaf, default)
  {
    var fmt := new ElementFormatter();
    Format(e, fmt, leaf, default);
    s := fmt.out;
  }

  /** `From<&str> for Element`. */
  function FromStr<V>(s: string): (r: Element<V>)
    ensures r.Literal? && r.line == s
  {
    Literal(s)
  }

  /** `From<Vec<String>> for Element`: one literal line per string, in order. */
  function FromStrings<V>(ss: seq<string>): (r: Element<V>)
    ensures r.Inner? && |r.elements| == |ss|
    ensures forall i :: 0 <= i < |ss| ==> r.elements[i] == Literal(ss[i])
    ensures VarsOf(r) == {}
  {
    Inner(Literals(ss))
  }

  function Literals<V>(ss: seq<string>): (r: seq<Element<V>>)
    ensures |r| == |ss|
    ensures forall i :: 0 <= i < |ss| ==> r[i] == Literal(ss[i])
  {
    if ss == [] then [] else [Literal(ss[0])] + Literals(ss[1..])
  }

  /** The children of `Inner(a + b)` are formatted as those of `a`, then of `b`. */
  lemma {:induction false} InnerTraceAppend<V, X>(a: seq<Element<V>>, b: seq<Element<V>>, leaf: Leaf<V, X>, x: X)
    requires forall i :: 0 <= i < |a| ==> Defined(leaf, VarsOf(a[i]), x)
    requires forall i :: 0 <= i < |b| ==> Defined(leaf, VarsOf(b[i]), x)
    ensures forall i :: 0 <= i < |a + b| ==> Defined(leaf, VarsOf((a + b)[i]), x)
    ensures InnerTrace(a + b, leaf, x) == InnerTrace(a, leaf, x) + InnerTrace(b, leaf, x)
  {
    assert forall i :: 0 <= i < |a + b| ==> (a + b)[i] == if i < |a| then a[i] else b[i - |a|];
    if a == [] {
      assert a + b == b;
    } else {
      assert (a + b)[1..] == a[1..] + b;
      InnerTraceAppend(a[1..], b, leaf, x);
    }
  }

  /** Formatting one more child after the others. */
  lemma ExecInnerSnoc<V, X>(s: FormatterState, es: seq<Element<V>>, e: Element<V>, leaf: Leaf<V, X>, x: X)
    requires forall i :: 0 <= i < |es| ==> Defined(leaf, VarsOf(es[i]), x)
    requires Defined(leaf, VarsOf(e), x)
    ensures forall i :: 0 <= i < |es + [e]| ==> Defined(leaf, VarsOf((es + [e])[i]), x)
    ensures Exec(s, InnerTrace(es + [e], leaf, x)) == Exec(Exec(s, InnerTrace(es, leaf, x)), Trace(e, leaf, x))
  {
    InnerTraceAppend(es, [e], leaf, x);
    InnerTraceOne(e, leaf, x);
    ExecAppend(s, InnerTrace(es, leaf, x), Trace(e, leaf, x));
  }

  lemma InnerTraceOne<V, X>(e: Element<V>, leaf: Leaf<V, X>, x: X)
    requires Defined(leaf, VarsOf(e), x)
    ensures InnerTrace([e], leaf, x) == Trace(e, leaf, x)
  {
    assert InnerTrace([e], leaf, x) == Trace(e, leaf, x) + InnerTrace([], leaf, x);
  }

  /** A tree whose leaves keep the indentation level keeps it overall:
      every `Nested` undoes its own `indent`. */
  lemma {:induction false} TraceKeepsIndent<V, X>(e: Element<V>, leaf: Leaf<V, X>, x: X, s: FormatterState)
    requires Defined(leaf, VarsOf(e), x) && KeepsIndent(leaf, VarsOf(e), x)
    ensures Exec(s, Trace(e, leaf, x)).indent == s.indent
    decreases e, 1
  {
    match e
    case Push(st) =>
      StatementIndent(st, leaf, x, Step(s, NewLineUnlessEmpty));
      assert Trace(e, leaf, x) == [NewLineUnlessEmpty] + Statements.Trace(st.parts, leaf, 0, x);
      ExecAppend(s, [NewLineUnlessEmpty], Statements.Trace(st.parts, leaf, 0, x));
    case Concat(st) =>
      StatementIndent(st, leaf, x, s);
    case Literal(line) =>
      assert Exec(s, [NewLineUnlessEmpty, Write(line)]) == Exec(Step(s, NewLineUnlessEmpty), [Write(line)]);
      WriteEffect(Step(s, NewLineUnlessEmpty), line);
    case Inner(es) =>
      forall c | c in es ensures Defined(leaf, VarsOf(c), x) && KeepsIndent(leaf, VarsOf(c), x) {
        ChildVars(e, c);
      }
      InnerKeepsIndent(e, es, leaf, x, s);
    case Nested(c) =>
      var s1 := Exec(s, [NewLineUnlessEmpty, Indent]);
      assert s1 == Exec(Step(s, NewLineUnlessEmpty), [Indent]);
      assert s1 == Step(Step(s, NewLineUnlessEmpty), Indent);
      TraceKeepsIndent(c, leaf, x, s1);
      ExecAppend(s, [NewLineUnlessEmpty, Indent], Trace(c, leaf, x));
      ExecAppend(s, [NewLineUnlessEmpty, Indent] + Trace(c, leaf, x), [Unindent]);
      assert Exec(Exec(s1, Trace(c, leaf, x)), [Unindent]) == Step(Exec(s1, Trace(c, leaf, x)), Unindent);
    case Spacing =>
      var t := Step(s, NewLineUnlessEmpty);
      assert Exec(s, [NewLineUnlessEmpty, NewLine]) == Exec(t, [NewLine]);
      assert Exec(t, [NewLine]) == Step(t, NewLine);
  }

  lemma {:induction false} InnerKeepsIndent<V, X>(e: Element<V>, es: seq<Element<V>>, leaf: Leaf<V, X>, x: X, s: FormatterState)
    requires e.Inner? && forall c :: c in es ==> c in e.elements
    requires forall c :: c in es ==> Defined(leaf, VarsOf(c), x) && KeepsIndent(leaf, VarsOf(c), x)
    ensures Exec(s, InnerTrace(es, leaf, x)).indent == s.indent
    decreases e, 0, |es|
  {
    if es != [] {
      assert es[0] in e.elements;
      TraceKeepsIndent(es[0], leaf, x, s);
      InnerKeepsIndent(e, es[1..], leaf, x, Exec(s, Trace(es[0], leaf, x)));
      ExecAppend(s, Trace(es[0], leaf, x), InnerTrace(es[1..], leaf, x));
    }
  }

  /** A statement of variables that keep the indentation level keeps it. */
  lemma StatementIndent<V, X>(st: Statement<V>, leaf: Leaf<V, X>, x: X, s: FormatterState)
    requires Defined(leaf, Vars(st), x) && KeepsIndent(leaf, Vars(st), x)
    ensures Exec(s, Statements.Trace(st.parts, leaf, 0, x)).indent == s.indent
  {
    assert forall i :: 0 <= i < |st.parts| ==> st.parts[i] in Vars(st);
    Statements.TraceIndent(st.parts, leaf, 0, x, s);
  }

  /** A statement of writing variables writes its text and nothing else. */
  lemma StatementKeepsIndent<V, X>(st: Statement<V>, leaf: Leaf<V, X>, x: X, s: FormatterState)
    requires Defined(leaf, Vars(st), x) && Writes(leaf, Vars(st), x)
    ensures WritesOnly(Statements.Trace(st.parts, leaf, 0, x))
    ensures Exec(s, Statements.Trace(st.parts, leaf, 0, x)).indent == s.indent
  {
    assert forall i :: 0 <= i < |st.parts| ==> st.parts[i] in Vars(st);
    TraceWrites(st.parts, leaf, 0, x);
    WritesEffect(s, Statements.Trace(st.parts, leaf, 0, x));
  }

  /** Formatting the children of an `Inner` one at a time. */
  lemma ExecInner<V, X>(s: FormatterState, e: Element<V>, rest: seq<Element<V>>, leaf: Leaf<V, X>, x: X)
    requires Defined(leaf, VarsOf(e), x)
    requires forall i :: 0 <= i < |rest| ==> Defined(leaf, VarsOf(rest[i]), x)
    ensures forall i :: 0 <= i < |[e] + rest| ==> Defined(leaf, VarsOf(([e] + rest)[i]), x)
    ensures Exec(s, InnerTrace([e] + rest, leaf, x)) == Exec(Exec(s, Trace(e, leaf, x)), InnerTrace(rest, leaf, x))
  {
    assert forall i :: 0 <= i < |[e] + rest| ==> ([e] + rest)[i] == if i == 0 then e else rest[i - 1];
    assert ([e] + rest)[1..] == rest;
    ExecAppend(s, Trace(e, leaf, x), InnerTrace(rest, leaf, x));
  }

  /** Formatting three children in turn. */
  lemma ExecThree<V, X>(s: FormatterState, e1: Element<V>, e2: Element<V>, e3: Element<V>, leaf: Leaf<V, X>, x: X)
    requires Defined(leaf, VarsOf(e1), x) && Defined(leaf, VarsOf(e2), x) && Defined(leaf, VarsOf(e3), x)
    ensures forall i :: 0 <= i < |[e1, e2, e3]| ==> Defined(leaf, VarsOf([e1, e2, e3][i]), x)
    ensures Exec(s, InnerTrace([e1, e2, e3], leaf, x))
         == Exec(Exec(Exec(s, Trace(e1, leaf, x)), Trace(e2, leaf, x)), Trace(e3, leaf, x))
  {
    var s1 := Exec(s, Trace(e1, leaf, x));
    var s2 := Exec(s1, Trace(e2, leaf, x));
    ExecInner(s2, e3, [], leaf, x);
    assert [e3] + [] == [e3];
    ExecInner(s1, e2, [e3], leaf, x);
    assert [e2] + [e3] == [e2, e3];
    ExecInner(s, e1, [e2, e3], leaf, x);
    assert [e1] + [e2, e3] == [e1, e2, e3];
  }

  /** Formatting four children in turn. */
  lemma ExecFour<V, X>(s: FormatterState, e1: Element<V>, e2: Element<V>, e3: Element<V>, e4: Element<V>, leaf: Leaf<V, X>, x: X)
    requires Defined(leaf, VarsOf(e1), x) && Defined(leaf, VarsOf(e2), x)
    requires Defined(leaf, VarsOf(e3), x) && Defined(leaf, VarsOf(e4), x)
    ensures forall i :: 0 <= i < |[e1, e2, e3, e4]| ==> Defined(leaf, VarsOf([e1, e2, e3, e4][i]), x)
    ensures Exec(s, InnerTrace([e1, e2, e3, e4], leaf, x))
         == Exec(Exec(Exec(Exec(s, Trace(e1, leaf, x)), Trace(e2, leaf, x)), Trace(e3, leaf, x)), Trace(e4, leaf, x))
  {
    ExecThree(Exec(s, Trace(e1, leaf, x)), e2, e3, e4, leaf, x);
    ExecInner(s, e1, [e2, e3, e4], leaf, x);
    assert [e1] + [e2, e3, e4] == [e1, e2, e3, e4];
  }

  lemma NoVars<V>(es: seq<Element<V>>)
    requires forall i :: 0 <= i < |es| ==> VarsOf(es[i]) == {}
    ensures VarsOf(Inner(es)) == {}
  {
  }

  /** `Literal`: the text on a line of its own, after the padding. */
  lemma LiteralEffect<V, X>(s: FormatterState, line: string, leaf: Leaf<V, X>, x: X)
    requires line != ""
    ensures Exec(s, Trace(Literal(line), leaf, x))
         == FormatterState(s.indent, false, s.out + (if s.lineEmpty then "" else "\n") + Padding(s.indent) + line)
  {
    var t := Step(s, NewLineUnlessEmpty);
    assert Exec(s, [NewLineUnlessEmpty, Write(line)]) == Exec(t, [Write(line)]);
    assert Exec(t, [Write(line)]) == Step(t, Write(line));
  }

  /** `Spacing`: ends the current line, if it has content, and adds one
      empty line. */
  lemma SpacingEffect<V, X>(s: FormatterState, leaf: Leaf<V, X>, x: X)
    ensures Exec(s, Trace(Spacing, leaf, x))
         == FormatterState(s.indent, true, s.out + (if s.lineEmpty then "\n" else "\n\n"))
  {
    var t := Step(s, NewLineUnlessEmpty);
    assert Exec(s, [NewLineUnlessEmpty, NewLine]) == Exec(t, [NewLine]);
    assert Exec(t, [NewLine]) == Step(t, NewLine);
  }

  /** The text a statement of writing variables writes. */
  ghost function StatementText<V, X>(st: Statement<V>, leaf: Leaf<V, X>, x: X): string
    requires Defined(leaf, Vars(st), x) && Writes(leaf, Vars(st), x)
  {
    StatementKeepsIndent(st, leaf, x, Fresh);
    Text(Statements.Trace(st.parts, leaf, 0, x))
  }

  /** `Push` starts a new line (unless the current one is empty) and writes
      the statement on it; `Concat` continues the current line. */
  lemma StatementEffect<V, X>(s: FormatterState, st: Statement<V>, leaf: Leaf<V, X>, x: X)
    requires Defined(leaf, Vars(st), x) && Writes(leaf, Vars(st), x)
    requires StatementText(st, leaf, x) != ""
    ensures Exec(s, Trace(Push(st), leaf, x))
         == FormatterState(s.indent, false, s.out + (if s.lineEmpty then "" else "\n") + Padding(s.indent) + StatementText(st, leaf, x))
    ensures Exec(s, Trace(Concat(st), leaf, x))
         == FormatterState(s.indent, false, s.out + (if s.lineEmpty then Padding(s.indent) else "") + StatementText(st, leaf, x))
  {
    var cmds := Statements.Trace(st.parts, leaf, 0, x);
    StatementKeepsIndent(st, leaf, x, s);
    ExecAppend(s, [NewLineUnlessEmpty], cmds);
    var t := Step(s, NewLineUnlessEmpty);
    assert Exec(s, [NewLineUnlessEmpty]) == t;
    WritesEffect(t, cmds);
    WritesEffect(s, cmds);
  }

  /** `Nested`: the content starts on a fresh line one level deeper, and
      afterwards the level is what it was. */
  lemma NestedEffect<V, X>(s: FormatterState, c: Element<V>, leaf: Leaf<V, X>, x: X)
    requires Defined(leaf, VarsOf(c), x) && KeepsIndent(leaf, VarsOf(c), x)
    ensures Exec(s, Trace(Nested(c), leaf, x))
         == Exec(FormatterState(s.indent + 1, true, s.out + (if s.lineEmpty then "" else "\n")), Trace(c, leaf, x)).(indent := s.indent)
  {
    var s1 := FormatterState(s.indent + 1, true, s.out + (if s.lineEmpty then "" else "\n"));
    assert Exec(s, [NewLineUnlessEmpty, Indent]) == s1 by {
      assert Exec(s, [NewLineUnlessEmpty, Indent]) == Exec(Step(s, NewLineUnlessEmpty), [Indent]);
      assert Exec(Step(s, NewLineUnlessEmpty), [Indent]) == Step(Step(s, NewLineUnlessEmpty), Indent);
    }
    TraceKeepsIndent(c, leaf, x, s1);
    ExecAppend(s, [NewLineUnlessEmpty, Indent], Trace(c, leaf, x));
    ExecAppend(s, [NewLineUnlessEmpty, Indent] + Trace(c, leaf, x), [Unindent]);
    var s2 := Exec(s1, Trace(c, leaf, x));
    assert Exec(s2, [Unindent]) == Step(s2, Unindent);
  }

  /** The variables of a block are those of its opening and its body. */
  lemma BlockVars<V>(open: Statement<V>, body: Element<V>, close: string)
    ensures VarsOf(Inner([Push(open), Nested(body), Literal(close)])) == Vars(open) + VarsOf(body)
  {
    var e1, e2, e3: Element<V> := Push(open), Nested(body), Literal(close);
    var es := [e1, e2, e3];
    forall v | v in VarsOf(Inner(es)) ensures v in Vars(open) + VarsOf(body) {
      var c :| c in es && v in VarsOf(c);
    }
    forall v | v in Vars(open) + VarsOf(body) ensures v in VarsOf(Inner(es)) {
      if v in Vars(open) {
        assert e1 in es && v in VarsOf(e1);
      } else {
        assert e2 in es && v in VarsOf(e2);
      }
    }
  }

  /** A block as the builders make it: the opening statement on a line of
      its own, the body one level deeper, and the closing line back at the
      outer level. */
  lemma BlockEffect<V, X>(s: FormatterState, open: Statement<V>, body: Element<V>, close: string, leaf: Leaf<V, X>, x: X)
    requires Defined(leaf, Vars(open), x) && Writes(leaf, Vars(open), x)
    requires Defined(leaf, VarsOf(body), x) && KeepsIndent(leaf, VarsOf(body), x)
    requires StatementText(open, leaf, x) != "" && close != ""
    ensures VarsOf(Inner([Push(open), Nested(body), Literal(close)])) == Vars(open) + VarsOf(body)
    ensures Exec(s, Trace(Inner([Push(open), Nested(body), Literal(close)]), leaf, x))
         == Closed(Exec(Opened(s, StatementText(open, leaf, x)), Trace(body, leaf, x)), s.indent, close)
  {
    BlockVars(open, body, close);
    BlockSteps(s, open, body, close, leaf, x);
    ExecThree(s, Push(open), Nested(body), Literal(close), leaf, x);
  }

  /** The state after a block's opening line and the line break after it. */
  function Opened(s: FormatterState, text: string): FormatterState
  {
    FormatterState(s.indent + 1, true, s.out + (if s.lineEmpty then "" else "\n") + Padding(s.indent) + text + "\n")
  }

  /** The state after a block's closing line, at level `indent`. */
  function Closed(inside: FormatterState, indent: nat, close: string): FormatterState
  {
    FormatterState(indent, false, inside.out + (if inside.lineEmpty then "" else "\n") + Padding(indent) + close)
  }

  lemma BlockSteps<V, X>(s: FormatterState, open: Statement<V>, body: Element<V>, close: string, leaf: Leaf<V, X>, x: X)
    requires Defined(leaf, Vars(open), x) && Writes(leaf, Vars(open), x)
    requires Defined(leaf, VarsOf(body), x) && KeepsIndent(leaf, VarsOf(body), x)
    requires StatementText(open, leaf, x) != "" && close != ""
    ensures Exec(Exec(Exec(s, Trace(Push(open), leaf, x)), Trace(Nested(body), leaf, x)), Trace(Literal(close), leaf, x))
         == Closed(Exec(Opened(s, StatementText(open, leaf, x)), Trace(body, leaf, x)), s.indent, close)
  {
    var text := StatementText(open, leaf, x);
    StatementEffect(s, open, leaf, x);
    var s1 := FormatterState(s.indent, false, s.out + (if s.lineEmpty then "" else "\n") + Padding(s.indent) + text);
    NestedEffect(s1, body, leaf, x);
    assert FormatterState(s1.indent + 1, true, s1.out + "\n") == Opened(s, text);
    var inside := Exec(Opened(s, text), Trace(body, leaf, x));
    LiteralEffect(inside.(indent := s.indent), close, leaf, x);
  }

  /** One `Spacing` between two lines leaves exactly one empty line. */
  lemma SpacingBetween<V, X>(a: string, b: string, leaf: Leaf<V, X>, x: X)
    requires a != "" && b != ""
    ensures Render(Inner([Literal(a), Spacing, Literal(b)]), leaf, x) == a + "\n\n" + b
  {
    var la: Element<V>, sp: Element<V>, lb: Element<V> := Literal(a), Spacing, Literal(b);
    NoVars([la, sp, lb]);
    LiteralEffect(Fresh, a, leaf, x);
    var s1 := FormatterState(0, false, a);
    assert Exec(Fresh, Trace(la, leaf, x)) == s1 by { assert "" + "" + Padding(0) + a == a; }
    SpacingEffect(s1, leaf, x);
    var s2 := FormatterState(0, true, a + "\n\n");
    LiteralEffect(s2, b, leaf, x);
    assert Exec(s2, Trace(lb, leaf, x)).out == a + "\n\n" + b by { assert Padding(0) == ""; }
    ExecThree(Fresh, la, sp, lb, leaf, x);
  }

  /** Two adjacent `Spacing`s leave two empty lines: the second one's line
      break is unconditional. */
  lemma TwoSpacings<V, X>(a: string, b: string, leaf: Leaf<V, X>, x: X)
    requires a != "" && b != ""
    ensures Render(Inner([Literal(a), Spacing, Spacing, Literal(b)]), leaf, x) == a + "\n\n\n" + b
  {
    var la: Element<V>, sp: Element<V>, lb: Element<V> := Literal(a), Spacing, Literal(b);
    NoVars([la, sp, sp, lb]);
    LiteralEffect(Fresh, a, leaf, x);
    var s1 := FormatterState(0, false, a);
    assert Exec(Fresh, Trace(la, leaf, x)) == s1 by { assert "" + "" + Padding(0) + a == a; }
    SpacingEffect(s1, leaf, x);
    var s2 := FormatterState(0, true, a + "\n\n");
    SpacingEffect(s2, leaf, x);
    var s3 := FormatterState(0, true, a + "\n\n\n");
    assert Exec(s2, Trace(sp, leaf, x)) == s3;
    LiteralEffect(s3, b, leaf, x);
    assert Exec(s3, Trace(lb, leaf, x)).out == a + "\n\n\n" + b by { assert Padding(0) == ""; }
    ExecFour(Fresh, la, sp, sp, lb, leaf, x);
  }

  /** A `Spacing` at the very start still breaks a line. */
  lemma LeadingSpacing<V, X>(b: string, leaf: Leaf<V, X>, x: X)
    requires b != ""
    ensures Render(Inner([Spacing, Literal(b)]), leaf, x) == "\n" + b
  {
    var sp: Element<V>, lb: Element<V> := Spacing, Literal(b);
    var s1 := Exec(Fresh, Trace(sp, leaf, x));
    SpacingEffect(Fresh, leaf, x);
    LiteralEffect(s1, b, leaf, x);
    ExecInner(s1, lb, [], leaf, x);
    ExecInner(Fresh, sp, [lb], leaf, x);
    assert [sp, lb] == [sp] + [lb];
    assert [lb] == [lb] + [];
  }

  /** `Nested` puts its content on its own lines, two spaces deeper, and
      the line after it is back at the outer level. */
  lemma NestedIndents<V, X>(a: string, b: string, c: string, leaf: Leaf<V, X>, x: X)
    requires a != "" && b != "" && c != ""
    ensures VarsOf<V>(Inner([Literal(a), Nested(Literal(b)), Literal(c)])) == {}
         && Render(Inner([Literal(a), Nested(Literal(b)), Literal(c)]), leaf, x) == a + "\n  " + b + "\n" + c
  {
    var la: Element<V>, lb: Element<V>, lc: Element<V> := Literal(a), Literal(b), Literal(c);
    var n: Element<V> := Nested(lb);
    assert VarsOf(n) == {};
    NoVars([la, n, lc]);
    LiteralEffect(Fresh, a, leaf, x);
    var s1 := FormatterState(0, false, a);
    assert Exec(Fresh, Trace(la, leaf, x)) == s1 by { assert "" + "" + Padding(0) + a == a; }
    NestedLiteral(s1, b, leaf, x);
    var s2 := FormatterState(0, false, a + "\n  " + b);
    assert Exec(s1, Trace(n, leaf, x)) == s2 by {
      assert Padding(1) == "  ";
      ConcatAssoc(a, "\n", "  ");
      assert "\n" + "  " == "\n  ";
    }
    LiteralEffect(s2, c, leaf, x);
    assert Exec(s2, Trace(lc, leaf, x)).out == a + "\n  " + b + "\n" + c by { assert Padding(0) == ""; }
    ExecThree(Fresh, la, n, lc, leaf, x);
  }

  /** A line nested one level deeper than the current one. */
  lemma NestedLiteral<V, X>(s: FormatterState, line: string, leaf: Leaf<V, X>, x: X)
    requires line != ""
    ensures Exec(s, Trace(Nested(Literal(line)), leaf, x))
         == FormatterState(s.indent, false, s.out + (if s.lineEmpty then "" else "\n") + Padding(s.indent + 1) + line)
  {
    NestedEffect(s, Element<V>.Literal(line), leaf, x);
    LiteralEffect<V, X>(FormatterState(s.indent + 1, true, s.out + (if s.lineEmpty then "" else "\n")), line, leaf, x);
  }

  /** `From<Vec<String>>`: non-empty strings render as lines joined by a
      newline. */
  lemma LinesRender<V, X>(ss: seq<string>, leaf: Leaf<V, X>, x: X)
    requires forall i :: 0 <= i < |ss| ==> ss[i] != ""
    ensures Render(FromStrings<V>(ss), leaf, x) == JoinStrings(ss, "\n")
  {
    LinesExec<V, X>(ss, leaf, x);
  }

  lemma {:induction false} LinesExec<V, X>(ss: seq<string>, leaf: Leaf<V, X>, x: X)
    requires forall i :: 0 <= i < |ss| ==> ss[i] != ""
    ensures forall i :: 0 <= i < |ss| ==> VarsOf(Literals<V>(ss)[i]) == {}
    ensures Exec(Fresh, InnerTrace(Literals<V>(ss), leaf, x)) == FormatterState(0, ss == [], JoinStrings(ss, "\n"))
    decreases |ss|
  {
    var ls := Literals<V>(ss);
    assert forall i :: 0 <= i < |ss| ==> VarsOf(ls[i]) == {} by {
      forall i | 0 <= i < |ss| ensures VarsOf(ls[i]) == {} {
        assert ls[i] == Literal(ss[i]);
      }
    }
    JoinStringsSmall(ss, "\n");
    if ss != [] {
      var init, last := ss[..|ss| - 1], ss[|ss| - 1];
      assert ss == init + [last];
      LinesExec<V, X>(init, leaf, x);
      LinesStep<V, X>(init, last, leaf, x);
    }
  }

  /** The induction step of `LinesExec`: one more line after the others. */
  lemma LinesStep<V, X>(init: seq<string>, last: string, leaf: Leaf<V, X>, x: X)
    requires last != ""
    requires forall i :: 0 <= i < |init| ==> VarsOf(Literals<V>(init)[i]) == {}
    requires Exec(Fresh, InnerTrace(Literals<V>(init), leaf, x)) == FormatterState(0, init == [], JoinStrings(init, "\n"))
    ensures forall i :: 0 <= i < |init + [last]| ==> VarsOf(Literals<V>(init + [last])[i]) == {}
    ensures Exec(Fresh, InnerTrace(Literals<V>(init + [last]), leaf, x)) == FormatterState(0, false, JoinStrings(init + [last], "\n"))
  {
    var li := Literals<V>(init);
    var l: Element<V> := Literal(last);
    assert Literals<V>(init + [last]) == li + [l];
    ExecInnerSnoc(Fresh, li, l, leaf, x);
    LiteralEffect(Exec(Fresh, InnerTrace(li, leaf, x)), last, leaf, x);
    LinesStepText(init, last);
  }

  lemma LinesStepText(init: seq<string>, last: string)
    ensures JoinStrings(init, "\n") + (if init == [] then "" else "\n") + Padding(0) + last == JoinStrings(init + [last], "\n")
  {
    assert Padding(0) == "";
    if init != [] {
      JoinStringsSnoc(init, last, "\n");
    } else {
      JoinStringsSmall(init, "\n");
      JoinStringsSmall([last], "\n");
      assert "" + "" + "" + last == last;
    }
  }

}
