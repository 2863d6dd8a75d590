/** The indentation-aware sink that `Element::format` drives.

    The sink keeps an indentation level, a flag telling whether the current
    line is still empty, and the text written so far.  Its five operations
    are the commands of `Cmd`; `Step` is the meaning of one command and
    `Exec` of a sequence of them.  `ElementFormatter` is the stateful sink
    itself, one method per operation, each proved to perform `Step`. */
module Formatter {
  import Joins

  datatype Cmd =
    | Write(text: string)
    | NewLineUnlessEmpty
    | NewLine
    | Indent
    | Unindent

  datatype FormatterState = FormatterState(indent: nat, lineEmpty: bool, out: string)

  /** A sink over an empty string: level 0, at the start of an empty line. */
  const Fresh := FormatterState(0, true, "")

  /** The indentation written before the first text on a line: two spaces per level. */
  function Padding(level: nat): (r: string)
    ensures |r| == 2 * level
    ensures forall i :: 0 <= i < |r| ==> r[i] == ' '
  {
    if level == 0 then "" else "  " + Padding(level - 1)
  }

  /** The effect of one command. */
  function Step(s: FormatterState, c: Cmd): FormatterState
  {
    match c
    case Write(text) =>
      if text == "" then s
      else FormatterState(s.indent, false, s.out + (if s.lineEmpty then Padding(s.indent) else "") + text)
    case NewLineUnlessEmpty =>
      if s.lineEmpty then s else FormatterState(s.indent, true, s.out + "\n")
    case NewLine =>
      FormatterState(s.indent, true, s.out + "\n")
    case Indent =>
      s.(indent := s.indent + 1)
    case Unindent =>
      s.(indent := if s.indent == 0 then 0 else s.indent - 1)
  }

  /** The effect of a sequence of commands, first to last. */
  function Exec(s: FormatterState, cmds: seq<Cmd>): FormatterState
    decreases |cmds|
  {
    if cmds == [] then s else Exec(Step(s, cmds[0]), cmds[1..])
  }

  /** The commands that only write text: they leave the indentation and
      never end a line on their own. */
  predicate IsWrite(c: Cmd)
  {
    c.Write?
  }

  predicate WritesOnly(cmds: seq<Cmd>)
  {
    forall i :: 0 <= i < |cmds| ==> IsWrite(cmds[i])
  }

  /** The text the write commands of `cmds` write, concatenated. */
  function Text(cmds: seq<Cmd>): string
    requires WritesOnly(cmds)
  {
    if cmds == [] then "" else cmds[0].text + Text(cmds[1..])
  }

  /** The text of two write sequences is the text of each, in order. */
  lemma {:induction false} TextAppend(a: seq<Cmd>, b: seq<Cmd>)
    requires WritesOnly(a) && WritesOnly(b)
    ensures WritesOnly(a + b)
    ensures Text(a + b) == Text(a) + Text(b)
    decreases |a|
  {
    WritesOnlyAppend(a, b);
    if a == [] {
      assert a + b == b;
    } else {
      var t := a[1..];
      TextAppend(t, b);
      assert (a + b)[0] == a[0];
      assert (a + b)[1..] == t + b;
      Joins.ConcatAssoc(a[0].text, Text(t), Text(b));
    }
  }

  /** Writes followed by writes are still only writes. */
  lemma WritesOnlyAppend(a: seq<Cmd>, b: seq<Cmd>)
    requires WritesOnly(a) && WritesOnly(b)
    ensures WritesOnly(a + b)
    ensures a != [] ==> WritesOnly(a[1..])
  {
    forall i | 0 <= i < |a + b| ensures IsWrite((a + b)[i]) {
      if i < |a| { assert (a + b)[i] == a[i]; } else { assert (a + b)[i] == b[i - |a|]; }
    }
    if a != [] {
      forall i | 0 <= i < |a[1..]| ensures IsWrite(a[1..][i]) {
        assert a[1..][i] == a[i + 1];
      }
    }
  }

  /** Running two command sequences one after the other is running their concatenation. */
  lemma {:induction false} ExecAppend(s: FormatterState, a: seq<Cmd>, b: seq<Cmd>)
    ensures Exec(s, a + b) == Exec(Exec(s, a), b)
    decreases |a|
  {
    if a != [] {
      assert (a + b)[0] == a[0];
      assert (a + b)[1..] == a[1..] + b;
      ExecAppend(Step(s, a[0]), a[1..], b);
    } else {
      assert a + b == b;
    }
  }

  /** The sink only ever appends: what was written stays a prefix of the output. */
  lemma {:induction false} ExecExtends(s: FormatterState, cmds: seq<Cmd>)
    ensures |s.out| <= |Exec(s, cmds).out|
    ensures Exec(s, cmds).out[..|s.out|] == s.out
    decreases |cmds|
  {
    if cmds != [] {
      var t := Step(s, cmds[0]);
      assert t.out[..|s.out|] == s.out;
      ExecExtends(t, cmds[1..]);
      assert Exec(s, cmds).out[..|t.out|][..|s.out|] == Exec(s, cmds).out[..|s.out|];
    }
  }

  /** What the commands write does not depend on what was written before:
      running them after some output is running them on an empty output
      and appending. */
  lemma {:induction false} ExecOut(s: FormatterState, cmds: seq<Cmd>)
    ensures Exec(s, cmds) == Exec(s.(out := ""), cmds).(out := s.out + Exec(s.(out := ""), cmds).out)
    decreases |cmds|
  {
    if cmds != [] {
      var s0 := s.(out := "");
      var t, t0 := Step(s, cmds[0]), Step(s0, cmds[0]);
      StepOut(s, cmds[0]);
      ExecOut(t, cmds[1..]);
      ExecOut(t0, cmds[1..]);
      assert t.(out := "") == t0.(out := "");
      var r := Exec(t.(out := ""), cmds[1..]);
      Joins.ConcatAssoc(s.out, t0.out, r.out);
    }
  }

  /** One command only appends to the output. */
  lemma StepOut(s: FormatterState, c: Cmd)
    ensures Step(s, c) == Step(s.(out := ""), c).(out := s.out + Step(s.(out := ""), c).out)
  {
    var e: string := "";
    match c
    case Write(text) =>
      if text != "" {
        Joins.ConcatAssoc(s.out, if s.lineEmpty then Padding(s.indent) else "", text);
        assert e + (if s.lineEmpty then Padding(s.indent) else "") + text == (if s.lineEmpty then Padding(s.indent) else "") + text;
      }
    case NewLineUnlessEmpty =>
      assert e + "\n" == "\n";
    case NewLine =>
      assert e + "\n" == "\n";
    case Indent =>
    case Unindent =>
  }

  /** Writing text: the padding goes out once, before the first non-empty
      write of a line, and the line is then no longer empty. */
  lemma WriteEffect(s: FormatterState, text: string)
    ensures Exec(s, [Write(text)]).indent == s.indent
    ensures text == "" ==> Exec(s, [Write(text)]) == s
    ensures text != "" ==> !Exec(s, [Write(text)]).lineEmpty
    ensures text != "" && s.lineEmpty ==> Exec(s, [Write(text)]).out == s.out + Padding(s.indent) + text
    ensures !s.lineEmpty ==> Exec(s, [Write(text)]).out == s.out + text
  {
    assert Exec(s, [Write(text)]) == Exec(Step(s, Write(text)), []);
  }

  /** `new_line_unless_empty` ends a non-empty line and does nothing on an
      empty one; doing it twice is doing it once. */
  lemma NewLineUnlessEmptyEffect(s: FormatterState)
    ensures s.lineEmpty ==> Exec(s, [NewLineUnlessEmpty]) == s
    ensures !s.lineEmpty ==> Exec(s, [NewLineUnlessEmpty]) == FormatterState(s.indent, true, s.out + "\n")
    ensures Exec(s, [NewLineUnlessEmpty, NewLineUnlessEmpty]) == Exec(s, [NewLineUnlessEmpty])
  {
    var t := Step(s, NewLineUnlessEmpty);
    assert Exec(s, [NewLineUnlessEmpty]) == Exec(t, []);
    assert Exec(s, [NewLineUnlessEmpty, NewLineUnlessEmpty]) == Exec(t, [NewLineUnlessEmpty]);
    assert Exec(t, [NewLineUnlessEmpty]) == Exec(Step(t, NewLineUnlessEmpty), []);
  }

  /** `unindent` never goes below level 0, and undoes an `indent`. */
  lemma IndentEffect(s: FormatterState)
    ensures Exec(s, [Unindent]).indent == if s.indent == 0 then 0 else s.indent - 1
    ensures Exec(s, [Indent, Unindent]) == s
    ensures Exec(s, [Indent]).out == s.out && Exec(s, [Unindent]).out == s.out
  {
    assert Exec(s, [Unindent]) == Exec(Step(s, Unindent), []);
    assert Exec(s, [Indent]) == Exec(Step(s, Indent), []);
    var t := Step(s, Indent);
    assert Exec(s, [Indent, Unindent]) == Exec(t, [Unindent]);
    assert Exec(t, [Unindent]) == Exec(Step(t, Unindent), []);
  }

  /** Write commands keep the level, and on a line that already has content
      they write exactly their text. */
  lemma {:induction false} WritesEffect(s: FormatterState, cmds: seq<Cmd>)
    requires WritesOnly(cmds)
    ensures Exec(s, cmds).indent == s.indent
    ensures Text(cmds) == "" ==> Exec(s, cmds) == s
    ensures Text(cmds) != "" ==> !Exec(s, cmds).lineEmpty
    ensures Text(cmds) != "" && s.lineEmpty ==> Exec(s, cmds).out == s.out + Padding(s.indent) + Text(cmds)
    ensures !s.lineEmpty ==> Exec(s, cmds).out == s.out + Text(cmds)
    decreases |cmds|
  {
    if cmds != [] {
      var t := Step(s, cmds[0]);
      assert WritesOnly(cmds[1..]) by {
        forall i | 0 <= i < |cmds[1..]| ensures IsWrite(cmds[1..][i]) {
          assert cmds[1..][i] == cmds[i + 1];
        }
      }
      assert IsWrite(cmds[0]);
      WritesEffect(t, cmds[1..]);
      if cmds[0].text == "" {
        assert t == s;
      } else if s.lineEmpty {
        assert t.out == s.out + Padding(s.indent) + cmds[0].text;
      }
    }
  }

  /** The stateful sink. */
  class ElementFormatter {
    var indent: nat
    var lineEmpty: bool
    var out: string

    function State(): FormatterState
      reads this
    {
      FormatterState(indent, lineEmpty, out)
    }

    /** A sink over an empty output, at level 0 on an empty line. */
    constructor ()
      ensures State() == Fresh
    {
      indent, lineEmpty, out := 0, true, "";
    }

    method WriteStr(text: string)
      modifies this
      ensures indent == old(indent)
      ensures text == "" ==> lineEmpty == old(lineEmpty) && out == old(out)
      ensures text != "" ==> !lineEmpty
      ensures text != "" ==> out == old(out) + (if old(lineEmpty) then Padding(old(indent)) else "") + text
      ensures State() == Step(old(State()), Write(text))
    {
      if text != "" {
        if lineEmpty {
          out := out + Padding(indent);
        }
        out := out + text;
        lineEmpty := false;
      }
    }

    method NewLineUnlessEmpty()
      modifies this
      ensures indent == old(indent) && lineEmpty
      ensures out == if old(lineEmpty) then old(out) else old(out) + "\n"
      ensures State() == Step(old(State()), Cmd.NewLineUnlessEmpty)
    {
      if !lineEmpty {
        out := out + "\n";
        lineEmpty := true;
      }
    }

    method NewLine()
      modifies this
      ensures indent == old(indent) && lineEmpty && out == old(out) + "\n"
      ensures State() == Step(old(State()), Cmd.NewLine)
    {
      out := out + "\n";
      lineEmpty := true;
    }

    method Indent()
      modifies this
      ensures indent == old(indent) + 1 && lineEmpty == old(lineEmpty) && out == old(out)
      ensures State() == Step(old(State()), Cmd.Indent)
    {
      indent := indent + 1;
    }

    method Unindent()
      modifies this
      ensures indent == (if old(indent) == 0 then 0 else old(indent) - 1)
      ensures lineEmpty == old(lineEmpty) && out == old(out)
      ensures State() == Step(old(State()), Cmd.Unindent)
    {
      if indent > 0 {
        indent := indent - 1;
      }
    }

    /** Performs one command. */
    method Perform(c: Cmd)
      modifies this
      ensures State() == Step(old(State()), c)
    {
      match c
      case Write(text) => WriteStr(text);
      case NewLineUnlessEmpty => NewLineUnlessEmpty();
      case NewLine => NewLine();
      case Indent => Indent();
      case Unindent => Unindent();
    }

    /** Performs commands in order. */
    method Run(cmds: seq<Cmd>)
      modifies this
      ensures State() == Exec(old(State()), cmds)
    {
      var i := 0;
      while i < |cmds|
        invariant 0 <= i <= |cmds|
        invariant Exec(old(State()), cmds) == Exec(State(), cmds[i..])
      {
        assert cmds[i..][1..] == cmds[i + 1..];
        Perform(cmds[i]);
        i := i + 1;
      }
    }
  }
}
