/** Shapes the builders of every adapter share: statements made of plain
    text, lists of renderable trees, and a block after a leading element.

    A builder turns text into the adapter's variable with a conversion
    `text`; `WritesText` asks of a leaf that it formats such a variable as
    a write of exactly that text. */
module Blocks {
  import opened Formatter
  import opened Joins
  import Statements
  import opened Document

  /** `leaf` formats every variable made by `text` as a write of that text. */
  ghost predicate WritesText<V, X>(leaf: Statements.Leaf<V, X>, text: string -> V, x: X)
  {
    forall t: string, d: nat :: leaf.requires(text(t), d, x) && leaf(text(t), d, x) == [Write(t)]
  }

  /** The variables of a run of texts. */
  function TextParts<V>(ts: seq<string>, text: string -> V): (r: seq<V>)
    ensures |r| == |ts| && forall i :: 0 <= i < |ts| ==> r[i] == text(ts[i])
  {
    if ts == [] then [] else [text(ts[0])] + TextParts(ts[1..], text)
  }

  lemma {:induction false} TextPartsTrace<V, X>(ts: seq<string>, leaf: Statements.Leaf<V, X>, text: string -> V, x: X, depth: nat)
    requires WritesText(leaf, text, x)
    ensures forall i :: 0 <= i < |ts| ==> leaf.requires(TextParts(ts, text)[i], depth, x)
    ensures WritesOnly(Statements.Trace(TextParts(ts, text), leaf, depth, x))
    ensures Formatter.Text(Statements.Trace(TextParts(ts, text), leaf, depth, x)) == Flatten(ts)
  {
    var ps := TextParts(ts, text);
    if ts != [] {
      assert ps[1..] == TextParts(ts[1..], text);
      TextPartsTrace(ts[1..], leaf, text, x, depth);
      var h := leaf(ps[0], depth, x);
      assert h == [Write(ts[0])];
      assert Formatter.Text(h) == ts[0] + Formatter.Text([]);
      TextAppend(h, Statements.Trace(ps[1..], leaf, depth, x));
    }
  }

  /** A statement of texts writes those texts side by side. */
  lemma TextStatement<V, X>(ts: seq<string>, leaf: Statements.Leaf<V, X>, text: string -> V, x: X)
    requires WritesText(leaf, text, x)
    ensures Statements.Defined(leaf, Statements.Vars(Statements.Statement(TextParts(ts, text))), x)
         && Statements.Writes(leaf, Statements.Vars(Statements.Statement(TextParts(ts, text))), x)
         && StatementText(Statements.Statement(TextParts(ts, text)), leaf, x) == Flatten(ts)
  {
    var st := Statements.Statement(TextParts(ts, text));
    forall v, d: nat | v in Statements.Vars(st) ensures leaf.requires(v, d, x) && WritesOnly(leaf(v, d, x)) {
      var i :| 0 <= i < |ts| && st.parts[i] == v;
      assert leaf(text(ts[i]), d, x) == [Write(ts[i])];
    }
    TextPartsTrace(ts, leaf, text, x, 0);
  }

  /** A statement each of whose parts the leaf writes as a known text
      writes those texts side by side. */
  lemma {:induction false} PartsTrace<V, X>(parts: seq<V>, texts: seq<string>, leaf: Statements.Leaf<V, X>, x: X, depth: nat)
    requires |parts| == |texts|
    requires forall i, d: nat :: 0 <= i < |parts| ==> leaf.requires(parts[i], d, x) && leaf(parts[i], d, x) == [Write(texts[i])]
    ensures WritesOnly(Statements.Trace(parts, leaf, depth, x))
    ensures Formatter.Text(Statements.Trace(parts, leaf, depth, x)) == Flatten(texts)
  {
    if parts != [] {
      assert forall i, d: nat :: 0 <= i < |parts[1..]| ==> leaf.requires(parts[1..][i], d, x) && leaf(parts[1..][i], d, x) == [Write(texts[1..][i])] by {
        forall i, d: nat | 0 <= i < |parts[1..]| ensures leaf.requires(parts[1..][i], d, x) && leaf(parts[1..][i], d, x) == [Write(texts[1..][i])] {
          assert parts[1..][i] == parts[i + 1] && texts[1..][i] == texts[i + 1];
        }
      }
      PartsTrace(parts[1..], texts[1..], leaf, x, depth);
      var h := leaf(parts[0], depth, x);
      assert h == [Write(texts[0])];
      assert Formatter.Text(h) == texts[0] + Formatter.Text([]);
      TextAppend(h, Statements.Trace(parts[1..], leaf, depth, x));
    }
  }

  lemma PartsText<V, X>(parts: seq<V>, texts: seq<string>, leaf: Statements.Leaf<V, X>, x: X)
    requires |parts| == |texts|
    requires forall i, d: nat :: 0 <= i < |parts| ==> leaf.requires(parts[i], d, x) && leaf(parts[i], d, x) == [Write(texts[i])]
    ensures Statements.Defined(leaf, Statements.Vars(Statements.Statement(parts)), x)
         && Statements.Writes(leaf, Statements.Vars(Statements.Statement(parts)), x)
         && StatementText(Statements.Statement(parts), leaf, x) == Flatten(texts)
  {
    var st := Statements.Statement(parts);
    forall v, d: nat | v in Statements.Vars(st) ensures leaf.requires(v, d, x) && WritesOnly(leaf(v, d, x)) {
      var i :| 0 <= i < |parts| && parts[i] == v;
      assert leaf(parts[i], d, x) == [Write(texts[i])];
    }
    PartsTrace(parts, texts, leaf, x, 0);
  }

  /** `leaf` writes each of `parts` as the text at the same position. */
  ghost predicate WrittenAs<V, X>(leaf: Statements.Leaf<V, X>, parts: seq<V>, texts: seq<string>, x: X)
  {
    |parts| == |texts|
    && forall i, d: nat :: 0 <= i < |parts| ==> leaf.requires(parts[i], d, x) && leaf(parts[i], d, x) == [Write(texts[i])]
  }

  /** Runs of such parts put side by side. */
  lemma WrittenAsAppend<V, X>(leaf: Statements.Leaf<V, X>, a: seq<V>, ta: seq<string>, b: seq<V>, tb: seq<string>, x: X)
    requires WrittenAs(leaf, a, ta, x) && WrittenAs(leaf, b, tb, x)
    ensures WrittenAs(leaf, a + b, ta + tb, x)
  {
    forall i, d: nat | 0 <= i < |a + b| ensures leaf.requires((a + b)[i], d, x) && leaf((a + b)[i], d, x) == [Write((ta + tb)[i])] {
      if i < |a| {
        assert (a + b)[i] == a[i] && (ta + tb)[i] == ta[i];
      } else {
        assert (a + b)[i] == b[i - |a|] && (ta + tb)[i] == tb[i - |a|];
      }
    }
  }

  /** A separator between such parts is written as its own text between
      their texts. */
  lemma WrittenAsInterleave<V, X>(leaf: Statements.Leaf<V, X>, parts: seq<V>, texts: seq<string>, sep: V, sepText: string, x: X)
    requires WrittenAs(leaf, parts, texts, x) && WrittenAs(leaf, [sep], [sepText], x)
    ensures WrittenAs(leaf, Interleave(parts, sep), Interleave(texts, sepText), x)
  {
    var ps, ts := Interleave(parts, sep), Interleave(texts, sepText);
    forall i, d: nat | 0 <= i < |ps| ensures leaf.requires(ps[i], d, x) && leaf(ps[i], d, x) == [Write(ts[i])] {
      var k := i / 2;
      if i % 2 == 0 {
        InterleaveItem(parts, sep, k);
        InterleaveItem(texts, sepText, k);
      } else {
        InterleaveSeparator(parts, sep, k);
        InterleaveSeparator(texts, sepText, k);
        assert [sep][0] == sep;
      }
    }
  }

  /** Parts made from texts by `text` are written as those texts. */
  lemma WrittenAsText<V, X>(leaf: Statements.Leaf<V, X>, ts: seq<string>, text: string -> V, x: X)
    requires WritesText(leaf, text, x)
    ensures WrittenAs(leaf, TextParts(ts, text), ts, x)
  {
  }

  /** A tree is renderable when all of its children are. */
  lemma InnerDefined<V, X>(es: seq<Element<V>>, leaf: Statements.Leaf<V, X>, x: X)
    requires forall c :: c in es ==> Statements.Defined(leaf, VarsOf(c), x)
    ensures Statements.Defined(leaf, VarsOf(Inner(es)), x)
  {
    forall v, d: nat | v in VarsOf(Inner(es)) ensures leaf.requires(v, d, x) {
      var c :| c in es && v in VarsOf(c);
    }
  }

  lemma InnerWrites<V, X>(es: seq<Element<V>>, leaf: Statements.Leaf<V, X>, x: X)
    requires forall c :: c in es ==> Statements.Defined(leaf, VarsOf(c), x) && Statements.Writes(leaf, VarsOf(c), x)
    ensures Statements.Defined(leaf, VarsOf(Inner(es)), x) && Statements.Writes(leaf, VarsOf(Inner(es)), x)
  {
    InnerDefined(es, leaf, x);
    forall v, d: nat | v in VarsOf(Inner(es)) ensures WritesOnly(leaf(v, d, x)) {
      var c :| c in es && v in VarsOf(c);
    }
  }

  /** Joining with `Spacing` keeps a list renderable. */
  lemma SpacedDefined<V, X>(es: seq<Element<V>>, leaf: Statements.Leaf<V, X>, x: X)
    requires forall c :: c in es ==> Statements.Defined(leaf, VarsOf(c), x) && Statements.Writes(leaf, VarsOf(c), x)
    ensures Statements.Defined(leaf, VarsOf(Inner(Interleave(es, Spacing))), x)
         && Statements.Writes(leaf, VarsOf(Inner(Interleave(es, Spacing))), x)
  {
    InterleaveMembers(es, Spacing);
    InnerWrites(Interleave(es, Spacing), leaf, x);
  }

  /** A tree keeps the indentation level when all of its children do. */
  lemma InnerKeeps<V, X>(es: seq<Element<V>>, leaf: Statements.Leaf<V, X>, x: X)
    requires forall c :: c in es ==> Statements.Defined(leaf, VarsOf(c), x) && Statements.KeepsIndent(leaf, VarsOf(c), x)
    ensures Statements.Defined(leaf, VarsOf(Inner(es)), x) && Statements.KeepsIndent(leaf, VarsOf(Inner(es)), x)
  {
    InnerDefined(es, leaf, x);
    forall v, d: nat, t: FormatterState | v in VarsOf(Inner(es)) ensures Exec(t, leaf(v, d, x)).indent == t.indent {
      var c :| c in es && v in VarsOf(c);
    }
  }

  /** Joining with `Spacing` keeps a list renderable at the same level. */
  lemma SpacedKeeps<V, X>(es: seq<Element<V>>, leaf: Statements.Leaf<V, X>, x: X)
    requires forall c :: c in es ==> Statements.Defined(leaf, VarsOf(c), x) && Statements.KeepsIndent(leaf, VarsOf(c), x)
    ensures Statements.Defined(leaf, VarsOf(Inner(Interleave(es, Spacing))), x)
         && Statements.KeepsIndent(leaf, VarsOf(Inner(Interleave(es, Spacing))), x)
  {
    InterleaveMembers(es, Spacing);
    InnerKeeps(Interleave(es, Spacing), leaf, x);
  }

  /** A block after a leading element, without a body: the declaration
      line and then `}` on the next line. */
  lemma HeadedEmpty<V, X>(s: FormatterState, a: Element<V>, decl: Statements.Statement<V>, leaf: Statements.Leaf<V, X>, x: X)
    requires Statements.Defined(leaf, VarsOf(a), x)
    requires Statements.Defined(leaf, Statements.Vars(decl), x) && Statements.Writes(leaf, Statements.Vars(decl), x)
    requires StatementText(decl, leaf, x) != ""
    ensures Statements.Defined(leaf, VarsOf(Inner([a, Push(decl), Literal("}")])), x)
    ensures Exec(s, Document.Trace(Inner([a, Push(decl), Literal("}")]), leaf, x))
         == Closed(Opened(Exec(s, Document.Trace(a, leaf, x)), StatementText(decl, leaf, x)), Exec(s, Document.Trace(a, leaf, x)).indent, "}")
  {
    var d: Element<V>, l: Element<V> := Push(decl), Literal("}");
    InnerDefined([a, d, l], leaf, x);
    var s1 := Exec(s, Document.Trace(a, leaf, x));
    StatementEffect(s1, decl, leaf, x);
    var s2 := Exec(s1, Document.Trace(d, leaf, x));
    LiteralEffect(s2, "}", leaf, x);
    ExecThree(s, a, d, l, leaf, x);
  }

  /** A block after a leading element, with a nested body. */
  lemma HeadedBlock<V, X>(s: FormatterState, a: Element<V>, decl: Statements.Statement<V>, body: Element<V>, leaf: Statements.Leaf<V, X>, x: X)
    requires Statements.Defined(leaf, VarsOf(a), x)
    requires Statements.Defined(leaf, Statements.Vars(decl), x) && Statements.Writes(leaf, Statements.Vars(decl), x)
    requires Statements.Defined(leaf, VarsOf(body), x) && Statements.KeepsIndent(leaf, VarsOf(body), x)
    requires StatementText(decl, leaf, x) != ""
    ensures Statements.Defined(leaf, VarsOf(Inner([a, Push(decl), Nested(body), Literal("}")])), x)
    ensures Exec(s, Document.Trace(Inner([a, Push(decl), Nested(body), Literal("}")]), leaf, x))
         == Closed(Exec(Opened(Exec(s, Document.Trace(a, leaf, x)), StatementText(decl, leaf, x)), Document.Trace(body, leaf, x)),
                   Exec(s, Document.Trace(a, leaf, x)).indent, "}")
  {
    var d: Element<V>, n: Element<V>, l: Element<V> := Push(decl), Nested(body), Literal("}");
    var s1 := Exec(s, Document.Trace(a, leaf, x));
    BlockSteps(s1, decl, body, "}", leaf, x);
    InnerDefined([a, d, n, l], leaf, x);
    ExecFour(s, a, d, n, l, leaf, x);
  }

  /** A block after a run of leading elements, such as the annotations of a
      Java declaration: the leading elements, then the block. */
  lemma LeadBlock<V, X>(s: FormatterState, lead: seq<Element<V>>, decl: Statements.Statement<V>, body: Element<V>, leaf: Statements.Leaf<V, X>, x: X)
    requires forall c :: c in lead ==> Statements.Defined(leaf, VarsOf(c), x)
    requires Statements.Defined(leaf, Statements.Vars(decl), x) && Statements.Writes(leaf, Statements.Vars(decl), x)
    requires Statements.Defined(leaf, VarsOf(body), x) && Statements.KeepsIndent(leaf, VarsOf(body), x)
    requires StatementText(decl, leaf, x) != ""
    ensures Statements.Defined(leaf, VarsOf(Inner(lead)), x)
    ensures Statements.Defined(leaf, VarsOf(Inner(lead + [Push(decl), Nested(body), Literal("}")])), x)
    ensures Exec(s, Document.Trace(Inner(lead + [Push(decl), Nested(body), Literal("}")]), leaf, x))
         == Closed(Exec(Opened(Exec(s, Document.Trace(Inner(lead), leaf, x)), StatementText(decl, leaf, x)), Document.Trace(body, leaf, x)),
                   Exec(s, Document.Trace(Inner(lead), leaf, x)).indent, "}")
  {
    var block: seq<Element<V>> := [Push(decl), Nested(body), Literal("}")];
    InnerDefined(lead, leaf, x);
    var s1 := Exec(s, Document.Trace(Inner(lead), leaf, x));
    BlockEffect(s1, decl, body, "}", leaf, x);
    assert forall i :: 0 <= i < |lead| ==> Statements.Defined(leaf, VarsOf(lead[i]), x) by {
      forall i | 0 <= i < |lead| ensures Statements.Defined(leaf, VarsOf(lead[i]), x) {
        assert lead[i] in lead;
      }
    }
    assert forall i :: 0 <= i < |block| ==> Statements.Defined(leaf, VarsOf(block[i]), x) by {
      ChildVars(Inner(block), block[0]);
      ChildVars(Inner(block), block[1]);
    }
    InnerTraceAppend(lead, block, leaf, x);
    InnerDefined(lead + block, leaf, x);
    ExecAppend(s, InnerTrace(lead, leaf, x), InnerTrace(block, leaf, x));
  }
}
