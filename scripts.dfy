/** The variables of the JavaScript and Python adapters and how they are
    formatted.

    Both adapters have the same four kinds of variable: literal text, a
    string to be quoted, a nested statement and a name.  They format them
    alike except for names (see `Names`), so one datatype serves both and a
    `Dialect` picks the name format.  Neither adapter has extra state: the
    extra value is `()`. */
module Scripts {
  import opened Formatter
  import opened Joins
  import Statements
  import Document
  import Names
  import opened Quoting

  datatype Dialect = JavaScript | Python

  datatype Variable =
    | Literal(text: string)
    | String(text: string)
    | Statement(statement: Statements.Statement<Variable>)
    | Name(name: Names.Name)

  /** How the dialect writes a name. */
  function NameText(d: Dialect, n: Names.Name): string
  {
    if d.JavaScript? then Names.JsFormat(n) else Names.PyFormat(n)
  }

  /** `Variable::format`: literal text is written as it is, a string is
      quoted, a statement formats its parts at the same depth, a name writes
      its text. */
  function Cmds(d: Dialect, v: Variable, depth: nat): seq<Cmd>
    decreases v
  {
    match v
    case Literal(t) => [Write(t)]
    case String(t) => QuoteCmds(t)
    case Statement(st) => PartsCmds(d, st.parts, depth)
    case Name(n) => [Write(NameText(d, n))]
  }

  /** The parts of a nested statement, formatted in order. */
  function PartsCmds(d: Dialect, ps: seq<Variable>, depth: nat): seq<Cmd>
    decreases ps
  {
    if ps == [] then [] else Cmds(d, ps[0], depth) + PartsCmds(d, ps[1..], depth)
  }

  /** The leaf that the renderer calls for this dialect's variables. */
  function Leaf(d: Dialect): Statements.Leaf<Variable, ()>
  {
    (v: Variable, depth: nat, x: ()) => Cmds(d, v, depth)
  }

  /** A nested statement is formatted exactly as the renderer formats a
      statement's parts with this dialect's leaf. */
  lemma {:induction false} PartsAreTrace(d: Dialect, ps: seq<Variable>, depth: nat)
    ensures PartsCmds(d, ps, depth) == Statements.Trace(ps, Leaf(d), depth, ())
    decreases ps
  {
    if ps != [] {
      PartsAreTrace(d, ps[1..], depth);
    }
  }

  /** The text a variable stands for. */
  function Text(d: Dialect, v: Variable): string
    decreases v
  {
    match v
    case Literal(t) => t
    case String(t) => Quoted(t)
    case Statement(st) => PartsText(d, st.parts)
    case Name(n) => NameText(d, n)
  }

  function PartsText(d: Dialect, ps: seq<Variable>): string
    decreases ps
  {
    if ps == [] then "" else Text(d, ps[0]) + PartsText(d, ps[1..])
  }

  /** The text of a list with one more variable at the front. */
  lemma PartsTextCons(d: Dialect, v: Variable, ps: seq<Variable>)
    ensures PartsText(d, [v] + ps) == Text(d, v) + PartsText(d, ps)
  {
    assert ([v] + ps)[1..] == ps;
  }

  /** The texts of a list of variables, one per variable. */
  function Texts(d: Dialect, vs: seq<Variable>): (r: seq<string>)
    ensures |r| == |vs| && forall i :: 0 <= i < |vs| ==> r[i] == Text(d, vs[i])
  {
    if vs == [] then [] else [Text(d, vs[0])] + Texts(d, vs[1..])
  }

  lemma {:induction false} PartsTextAppend(d: Dialect, a: seq<Variable>, b: seq<Variable>)
    ensures PartsText(d, a + b) == PartsText(d, a) + PartsText(d, b)
  {
    if a == [] {
      assert a + b == b;
    } else {
      assert (a + b)[0] == a[0] && (a + b)[1..] == a[1..] + b;
      PartsTextAppend(d, a[1..], b);
      ConcatAssoc(Text(d, a[0]), PartsText(d, a[1..]), PartsText(d, b));
    }
  }

  lemma PartsTextPair(d: Dialect, a: Variable, b: Variable)
    ensures PartsText(d, [a, b]) == Text(d, a) + Text(d, b)
  {
    assert [a, b][1..] == [b];
    assert PartsText(d, [b]) == Text(d, b) + PartsText(d, []);
  }

  /** A joined statement writes the texts of its parts joined by the
      separator's text. */
  lemma {:induction false} PartsTextInterleave(d: Dialect, vs: seq<Variable>, sep: Variable)
    ensures PartsText(d, Interleave(vs, sep)) == JoinStrings(Texts(d, vs), Text(d, sep))
    decreases |vs|
  {
    JoinStringsSmall(Texts(d, vs), Text(d, sep));
    if |vs| == 1 {
      assert PartsText(d, vs) == Text(d, vs[0]) + PartsText(d, []);
    } else if |vs| > 1 {
      var init, last := vs[..|vs| - 1], vs[|vs| - 1];
      assert vs == init + [last];
      PartsTextInterleave(d, init, sep);
      InterleaveSnoc(init, last, sep);
      PartsTextAppend(d, Interleave(init, sep), [sep, last]);
      PartsTextPair(d, sep, last);
      assert Texts(d, vs) == Texts(d, init) + [Text(d, last)];
      JoinStringsSnoc(Texts(d, init), Text(d, last), Text(d, sep));
      ConcatAssoc(JoinStrings(Texts(d, init), Text(d, sep)), Text(d, sep), Text(d, last));
    }
  }

  /** Formatting a variable only writes: it never ends a line, never
      changes the indentation, and writes the variable's text whatever the
      depth. */
  lemma {:induction false} CmdsWrite(d: Dialect, v: Variable, depth: nat)
    ensures WritesOnly(Cmds(d, v, depth))
    ensures Formatter.Text(Cmds(d, v, depth)) == Text(d, v)
    decreases v, 1
  {
    match v
    case Literal(t) =>
      assert Formatter.Text([Write(t)]) == t + Formatter.Text([]);
    case String(t) =>
      QuoteCmdsText(t);
    case Statement(st) =>
      PartsWrite(d, st.parts, depth);
    case Name(n) =>
      assert Formatter.Text([Write(NameText(d, n))]) == NameText(d, n) + Formatter.Text([]);
  }

  lemma {:induction false} PartsWrite(d: Dialect, ps: seq<Variable>, depth: nat)
    ensures WritesOnly(PartsCmds(d, ps, depth))
    ensures Formatter.Text(PartsCmds(d, ps, depth)) == PartsText(d, ps)
    decreases ps, 0
  {
    if ps != [] {
      CmdsWrite(d, ps[0], depth);
      PartsWrite(d, ps[1..], depth);
      TextAppend(Cmds(d, ps[0], depth), PartsCmds(d, ps[1..], depth));
    }
  }

  /** The leaf is defined everywhere and only writes, so statements of
      these variables stay on one line. */
  lemma LeafWrites(d: Dialect, vs: set<Variable>)
    ensures Statements.Defined(Leaf(d), vs, ())
    ensures Statements.Writes(Leaf(d), vs, ())
  {
    forall v, depth: nat | v in vs ensures WritesOnly(Leaf(d)(v, depth, ())) {
      CmdsWrite(d, v, depth);
    }
  }

  /** `Variable::format` on the sink. */
  method Format(d: Dialect, v: Variable, fmt: ElementFormatter, depth: nat)
    modifies fmt
    ensures fmt.State() == Exec(old(fmt.State()), Cmds(d, v, depth))
  {
    match v
    case Literal(t) =>
      fmt.WriteStr(t);
    case String(t) =>
      QuoteString(fmt, t);
    case Statement(st) =>
      Statements.Format(st, fmt, Leaf(d), depth, ());
      PartsAreTrace(d, st.parts, depth);
    case Name(n) =>
      fmt.WriteStr(NameText(d, n));
  }

  /** What the renderer writes for a statement of these variables is the
      statement's text. */
  lemma StatementText(d: Dialect, st: Statements.Statement<Variable>)
    ensures Statements.Defined(Leaf(d), Statements.Vars(st), ())
         && Statements.Writes(Leaf(d), Statements.Vars(st), ())
         && Document.StatementText(st, Leaf(d), ()) == PartsText(d, st.parts)
  {
    LeafWrites(d, Statements.Vars(st));
    PartsAreTrace(d, st.parts, 0);
    PartsWrite(d, st.parts, 0);
  }
}
