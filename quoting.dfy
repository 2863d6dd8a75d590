/** `quote_string`: a string variable written as a double-quoted literal.

    The characters tab, U+0007, newline, carriage return, U+0014, `'`, `"`
    and `\` are written as a backslash and a letter or the character
    itself; every other character is copied.  The table is as the adapter
    has it: U+0007 becomes `\b` and U+0014 becomes `\f`.  `Unquote` reads
    the table backwards, so a quoted string determines its input. */
module Quoting {
  import opened Wrappers
  import opened Formatter

  /** The characters the table escapes. */
  predicate Special(c: char)
  {
    c in {'\t', '\U{0007}', '\n', '\r', '\U{0014}', '\'', '"', '\\'}
  }

  /** What one input character becomes. */
  function EscapeChar(c: char): (r: string)
    ensures Special(c) ==> |r| == 2 && r[0] == '\\'
    ensures !Special(c) ==> r == [c]
  {
    match c
    case '\t' => "\\t"
    case '\U{0007}' => "\\b"
    case '\n' => "\\n"
    case '\r' => "\\r"
    case '\U{0014}' => "\\f"
    case '\'' => "\\'"
    case '"' => "\\\""
    case '\\' => "\\\\"
    case _ => [c]
  }

  /** The character an escape letter stands for, if it is one of the table's. */
  function Unescaped(code: char): Option<char>
  {
    match code
    case 't' => Some('\t')
    case 'b' => Some('\U{0007}')
    case 'n' => Some('\n')
    case 'r' => Some('\r')
    case 'f' => Some('\U{0014}')
    case '\'' => Some('\'')
    case '"' => Some('"')
    case '\\' => Some('\\')
    case _ => None
  }

  /** The escaped characters, without the quotes. */
  function Escaped(s: string): (r: string)
    ensures |r| >= |s|
    ensures (forall i :: 0 <= i < |s| ==> !Special(s[i])) ==> r == s
  {
    if s == [] then "" else EscapeChar(s[0]) + Escaped(s[1..])
  }

  /** The literal `quote_string` writes: a quote, the escaped input, a quote. */
  function Quoted(s: string): (r: string)
    ensures |r| >= |s| + 2 && r[0] == '"' && r[|r| - 1] == '"'
    ensures s == "" ==> r == "\"\""
  {
    "\"" + Escaped(s) + "\""
  }

  /** Reads escaped text back: a backslash must start one of the table's
      escapes, any other character stands for itself. */
  function Unescape(t: string): Option<string>
    decreases |t|
  {
    if t == [] then Some([])
    else if t[0] == '\\' then
      if |t| >= 2 && Unescaped(t[1]).Some? then
        match Unescape(t[2..])
        case None => None
        case Some(rest) => Some([Unescaped(t[1]).value] + rest)
      else None
    else
      match Unescape(t[1..])
      case None => None
      case Some(rest) => Some([t[0]] + rest)
  }

  /** Reads a quoted literal back. */
  function Unquote(t: string): Option<string>
  {
    if |t| >= 2 && t[0] == '"' && t[|t| - 1] == '"' then Unescape(t[1..|t| - 1]) else None
  }

  lemma {:induction false} UnescapeEscaped(s: string)
    ensures Unescape(Escaped(s)) == Some(s)
  {
    if s != [] {
      var e, rest := EscapeChar(s[0]), Escaped(s[1..]);
      UnescapeEscaped(s[1..]);
      if Special(s[0]) {
        assert (e + rest)[0] == '\\' && (e + rest)[1] == e[1];
        assert (e + rest)[2..] == rest;
      } else {
        assert (e + rest)[0] == s[0];
        assert (e + rest)[1..] == rest;
      }
      assert s == [s[0]] + s[1..];
    }
  }

  /** Quoting loses nothing: the literal reads back as its input, so two
      different strings never quote alike. */
  lemma QuotedRoundTrip(s: string)
    ensures Unquote(Quoted(s)) == Some(s)
  {
    var q := Quoted(s);
    assert q[1..|q| - 1] == Escaped(s);
    UnescapeEscaped(s);
  }

  lemma QuotedInjective(s: string, t: string)
    requires Quoted(s) == Quoted(t)
    ensures s == t
  {
    QuotedRoundTrip(s);
    QuotedRoundTrip(t);
  }

  /** The writes of the character loop, one per input character. */
  function CharCmds(s: string): (r: seq<Cmd>)
    ensures WritesOnly(r)
  {
    if s == [] then [] else [Write(EscapeChar(s[0]))] + CharCmds(s[1..])
  }

  /** The sink commands `quote_string` performs. */
  function QuoteCmds(s: string): seq<Cmd>
  {
    [Write("\"")] + CharCmds(s) + [Write("\"")]
  }

  lemma {:induction false} CharCmdsText(s: string)
    ensures Text(CharCmds(s)) == Escaped(s)
  {
    if s != [] {
      CharCmdsText(s[1..]);
      TextAppend([Write(EscapeChar(s[0]))], CharCmds(s[1..]));
    }
  }

  /** `quote_string` only writes, and what it writes is the quoted literal. */
  lemma QuoteCmdsText(s: string)
    ensures WritesOnly(QuoteCmds(s))
    ensures Text(QuoteCmds(s)) == Quoted(s)
  {
    CharCmdsText(s);
    TextAppend([Write("\"")], CharCmds(s));
    TextAppend([Write("\"")] + CharCmds(s), [Write("\"")]);
  }

  /** `quote_string`: an opening quote, each character through the table,
      a closing quote. */
  method QuoteString(fmt: ElementFormatter, input: string)
    modifies fmt
    ensures fmt.State() == Exec(old(fmt.State()), QuoteCmds(input))
  {
    ExecAppend(fmt.State(), [Write("\"")] + CharCmds(input), [Write("\"")]);
    ExecAppend(fmt.State(), [Write("\"")], CharCmds(input));
    fmt.WriteStr("\"");
    for i := 0 to |input|
      invariant Exec(old(fmt.State()), QuoteCmds(input)) == Exec(Exec(fmt.State(), CharCmds(input[i..])), [Write("\"")])
    {
      assert CharCmds(input[i..]) == [Write(EscapeChar(input[i]))] + CharCmds(input[i + 1..]);
      ExecAppend(fmt.State(), [Write(EscapeChar(input[i]))], CharCmds(input[i + 1..]));
      match input[i]
      case '\t' => fmt.WriteStr("\\t");
      case '\U{0007}' => fmt.WriteStr("\\b");
      case '\n' => fmt.WriteStr("\\n");
      case '\r' => fmt.WriteStr("\\r");
      case '\U{0014}' => fmt.WriteStr("\\f");
      case '\'' => fmt.WriteStr("\\'");
      case '"' => fmt.WriteStr("\\\"");
      case '\\' => fmt.WriteStr("\\\\");
      case c => fmt.WriteStr([c]);
    }
    fmt.WriteStr("\"");
  }
}
