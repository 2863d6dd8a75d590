/** The import visitor of the JavaScript adapter.

    Every node that can hold a name hands the imported names under it to a
    receiver.  The only receiver is an ordered set, so a visit is modelled
    as the set of names it reports.  `Push`, `Inner` and `Nested` are
    visited; `Concat`, `Literal` and `Spacing` are not. */
module JsImports {
  import opened Joins
  import opened Names
  import Statements
  import opened Document
  import ElementLists
  import Scripts

  type Tree = Element<Scripts.Variable>

  /** `Imports for Name`: an imported name reports itself. */
  function NameImports(n: Name): set<ImportedName>
  {
    if n.Imported? then {n.imported} else {}
  }

  /** `Imports for Variable`: a statement is visited, a name delegates. */
  function VariableImports(v: Scripts.Variable): set<ImportedName>
    decreases v
  {
    match v
    case Statement(st) => PartsImports(st.parts)
    case Name(n) => NameImports(n)
    case _ => {}
  }

  /** `Imports for Statement`: every part, through `import_all`. */
  function PartsImports(ps: seq<Scripts.Variable>): set<ImportedName>
    decreases ps
  {
    if ps == [] then {} else VariableImports(ps[0]) + PartsImports(ps[1..])
  }

  /** `Imports for Element`. */
  function ElementImports(e: Tree): set<ImportedName>
    decreases e
  {
    match e
    case Push(st) => PartsImports(st.parts)
    case Inner(es) => AllImports(es)
    case Nested(c) => ElementImports(c)
    case _ => {}
  }

  /** `import_all` over a list of elements. */
  function AllImports(es: seq<Tree>): set<ImportedName>
    decreases es
  {
    if es == [] then {} else ElementImports(es[0]) + AllImports(es[1..])
  }

  /** `import_all` over a list of statements. */
  function StatementsImports(sts: seq<Statements.Statement<Scripts.Variable>>): set<ImportedName>
  {
    if sts == [] then {} else PartsImports(sts[0].parts) + StatementsImports(sts[1..])
  }

  /** `Imports for Elements`. */
  function ElementsImports(es: ElementLists.Elements<Scripts.Variable>): set<ImportedName>
  {
    AllImports(es.elements)
  }

  /** `import_all` reports a name exactly when one of the items reports it. */
  lemma {:induction false} AllImportsItems(es: seq<Tree>)
    ensures forall n :: n in AllImports(es) <==> exists i :: 0 <= i < |es| && n in ElementImports(es[i])
  {
    if es != [] {
      AllImportsItems(es[1..]);
      forall n | n in AllImports(es) ensures exists i :: 0 <= i < |es| && n in ElementImports(es[i]) {
        if n !in ElementImports(es[0]) {
          assert n in AllImports(es[1..]);
          var i :| 0 <= i < |es[1..]| && n in ElementImports(es[1..][i]);
          assert es[1..][i] == es[i + 1];
        }
      }
      forall n, i | 0 <= i < |es| && n in ElementImports(es[i]) ensures n in AllImports(es) {
        if i > 0 {
          assert es[1..][i - 1] == es[i];
        }
      }
    }
  }

  lemma {:induction false} PartsImportsItems(ps: seq<Scripts.Variable>)
    ensures forall n :: n in PartsImports(ps) <==> exists i :: 0 <= i < |ps| && n in VariableImports(ps[i])
  {
    if ps != [] {
      PartsImportsItems(ps[1..]);
      forall n | n in PartsImports(ps) ensures exists i :: 0 <= i < |ps| && n in VariableImports(ps[i]) {
        if n !in VariableImports(ps[0]) {
          assert n in PartsImports(ps[1..]);
          var i :| 0 <= i < |ps[1..]| && n in VariableImports(ps[1..][i]);
          assert ps[1..][i] == ps[i + 1];
        }
      }
      forall n, i | 0 <= i < |ps| && n in VariableImports(ps[i]) ensures n in PartsImports(ps) {
        if i > 0 {
          assert ps[1..][i - 1] == ps[i];
        }
      }
    }
  }

  /** Visiting two lists in turn reports the names of both. */
  lemma AllImportsAppend(a: seq<Tree>, b: seq<Tree>)
    ensures AllImports(a + b) == AllImports(a) + AllImports(b)
  {
    AllImportsItems(a);
    AllImportsItems(b);
    AllImportsItems(a + b);
    forall n | n in AllImports(a + b) ensures n in AllImports(a) + AllImports(b) {
      var i :| 0 <= i < |a + b| && n in ElementImports((a + b)[i]);
      if i < |a| {
        assert (a + b)[i] == a[i];
      } else {
        assert (a + b)[i] == b[i - |a|];
      }
    }
    forall n | n in AllImports(a) + AllImports(b) ensures n in AllImports(a + b) {
      if n in AllImports(a) {
        var i :| 0 <= i < |a| && n in ElementImports(a[i]);
        assert (a + b)[i] == a[i];
      } else {
        var i :| 0 <= i < |b| && n in ElementImports(b[i]);
        assert (a + b)[|a| + i] == b[i];
      }
    }
  }

  /** Joining with a separator that reports nothing, such as `Spacing`,
      reports the same names as the list itself. */
  lemma JoinKeepsImports(es: seq<Tree>, sep: Tree)
    requires ElementImports(sep) == {}
    ensures AllImports(Interleave(es, sep)) == AllImports(es)
  {
    var js := Interleave(es, sep);
    AllImportsItems(es);
    AllImportsItems(js);
    InterleaveMembers(es, sep);
    forall n | n in AllImports(js) ensures n in AllImports(es) {
      var i :| 0 <= i < |js| && n in ElementImports(js[i]);
      assert js[i] in js;
      var k :| 0 <= k < |es| && es[k] == js[i];
    }
    forall n | n in AllImports(es) ensures n in AllImports(js) {
      var k :| 0 <= k < |es| && n in ElementImports(es[k]);
      InterleaveItem(es, sep, k);
      assert js[2 * k] == es[k];
    }
  }

  /** The trees that hold no `Concat`. */
  ghost predicate NoConcat(e: Tree)
    decreases e
  {
    match e
    case Concat(_) => false
    case Inner(es) => forall c :: c in es ==> NoConcat(c)
    case Nested(c) => NoConcat(c)
    case _ => true
  }

  /** The imported names of the variables the renderer formats. */
  ghost function MentionedImports(e: Tree): set<ImportedName>
  {
    set v, n | v in VarsOf(e) && n in VariableImports(v) :: n
  }

  /** The visitor reports only names of variables in the tree, and all of
      them when the tree has no `Concat`: `Concat` is the one node the
      renderer formats and the visitor skips. */
  lemma {:induction false} ImportsAreMentioned(e: Tree)
    ensures ElementImports(e) <= MentionedImports(e)
    ensures NoConcat(e) ==> ElementImports(e) == MentionedImports(e)
    decreases e
  {
    match e
    case Push(st) =>
      PartsImportsItems(st.parts);
      forall n | n in MentionedImports(e) ensures n in ElementImports(e) {
        var v :| v in Statements.Vars(st) && n in VariableImports(v);
        var i :| 0 <= i < |st.parts| && st.parts[i] == v;
      }
    case Concat(st) =>
    case Literal(_) =>
    case Inner(es) =>
      AllImportsItems(es);
      forall n | n in ElementImports(e) ensures n in MentionedImports(e) {
        assert n in AllImports(es);
        var i :| 0 <= i < |es| && n in ElementImports(es[i]);
        ImportsAreMentioned(es[i]);
        var v :| v in VarsOf(es[i]) && n in VariableImports(v);
        assert es[i] in es;
      }
      if NoConcat(e) {
        forall n | n in MentionedImports(e) ensures n in ElementImports(e) {
          var v :| v in VarsOf(e) && n in VariableImports(v);
          var c :| c in es && v in VarsOf(c);
          var i :| 0 <= i < |es| && es[i] == c;
          ImportsAreMentioned(c);
        }
      }
    case Nested(c) =>
      ImportsAreMentioned(c);
    case Spacing =>
  }
}
