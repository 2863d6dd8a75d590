/** The import visitor of the Java adapter.

    Every node that can hold a class type hands the class types under it to
    a receiver; the receiver of `FileSpec::format` is an ordered set, so a
    visit is modelled as the set of class types it reports.  Unlike the
    JavaScript visitor, `Concat` is visited too, and a type variable, a
    nested statement and a nested tree are all looked into. */
module JavaImports {
  import opened Joins
  import Statements
  import opened Document
  import ElementLists
  import JavaTypes
  import JavaModifiers
  import opened JavaVariables

  type Imported = set<JavaTypes.ClassType>

  /** `Imports for ClassType`: the type itself, then its arguments. */
  function ClassImports(c: JavaTypes.ClassType): Imported
    decreases c
  {
    {c} + TypesImports(c.arguments)
  }

  /** `import_all` over a list of types. */
  function TypesImports(ts: seq<JavaTypes.Type>): Imported
    decreases ts
  {
    if ts == [] then {} else TypeImports(ts[0]) + TypesImports(ts[1..])
  }

  /** `Imports for Type`: only a class type reports. */
  function TypeImports(t: JavaTypes.Type): Imported
    decreases t
  {
    match t
    case Class(c) => ClassImports(c)
    case _ => {}
  }

  /** `Imports for Variable`: types, statements and trees are visited. */
  function VariableImports(v: Variable): Imported
    decreases v
  {
    match v
    case Type(t) => TypeImports(t)
    case Statement(st) => PartsImports(st.parts)
    case Element(e) => ElementImports(e)
    case _ => {}
  }

  /** `Imports for Statement`: every part, through `import_all`. */
  function PartsImports(ps: seq<Variable>): Imported
    decreases ps
  {
    if ps == [] then {} else VariableImports(ps[0]) + PartsImports(ps[1..])
  }

  /** `Imports for Element`: `Push`, `Concat`, `Inner` and `Nested`. */
  function ElementImports(e: Tree): Imported
    decreases e
  {
    match e
    case Push(st) => PartsImports(st.parts)
    case Concat(st) => PartsImports(st.parts)
    case Inner(es) => AllImports(es)
    case Nested(c) => ElementImports(c)
    case _ => {}
  }

  /** `import_all` over a list of elements. */
  function AllImports(es: seq<Tree>): Imported
    decreases es
  {
    if es == [] then {} else ElementImports(es[0]) + AllImports(es[1..])
  }

  /** `Imports for Elements`. */
  function ElementsImports(es: ElementLists.Elements<Variable>): Imported
  {
    AllImports(es.elements)
  }

  /** `import_all`: a class type is reported exactly when one of the items
      reports it. */
  lemma {:induction false} AllImportsItems(es: seq<Tree>)
    ensures forall c :: c in AllImports(es) <==> exists i :: 0 <= i < |es| && c in ElementImports(es[i])
  {
    if es != [] {
      AllImportsItems(es[1..]);
      forall c | c in AllImports(es) ensures exists i :: 0 <= i < |es| && c in ElementImports(es[i]) {
        if c !in ElementImports(es[0]) {
          assert c in AllImports(es[1..]);
          var i :| 0 <= i < |es[1..]| && c in ElementImports(es[1..][i]);
          assert es[1..][i] == es[i + 1];
        }
      }
      forall c, i | 0 <= i < |es| && c in ElementImports(es[i]) ensures c in AllImports(es) {
        if i > 0 {
          assert es[1..][i - 1] == es[i];
        }
      }
    }
  }

  lemma {:induction false} PartsImportsItems(ps: seq<Variable>)
    ensures forall c :: c in PartsImports(ps) <==> exists i :: 0 <= i < |ps| && c in VariableImports(ps[i])
  {
    if ps != [] {
      PartsImportsItems(ps[1..]);
      forall c | c in PartsImports(ps) ensures exists i :: 0 <= i < |ps| && c in VariableImports(ps[i]) {
        if c !in VariableImports(ps[0]) {
          assert c in PartsImports(ps[1..]);
          var i :| 0 <= i < |ps[1..]| && c in VariableImports(ps[1..][i]);
          assert ps[1..][i] == ps[i + 1];
        }
      }
      forall c, i | 0 <= i < |ps| && c in VariableImports(ps[i]) ensures c in PartsImports(ps) {
        if i > 0 {
          assert ps[1..][i - 1] == ps[i];
        }
      }
    }
  }

  lemma {:induction false} TypesImportsItems(ts: seq<JavaTypes.Type>)
    ensures forall c :: c in TypesImports(ts) <==> exists i :: 0 <= i < |ts| && c in TypeImports(ts[i])
  {
    if ts != [] {
      TypesImportsItems(ts[1..]);
      forall c | c in TypesImports(ts) ensures exists i :: 0 <= i < |ts| && c in TypeImports(ts[i]) {
        if c !in TypeImports(ts[0]) {
          assert c in TypesImports(ts[1..]);
          var i :| 0 <= i < |ts[1..]| && c in TypeImports(ts[1..][i]);
          assert ts[1..][i] == ts[i + 1];
        }
      }
      forall c, i | 0 <= i < |ts| && c in TypeImports(ts[i]) ensures c in TypesImports(ts) {
        if i > 0 {
          assert ts[1..][i - 1] == ts[i];
        }
      }
    }
  }

  /** A class type reports itself and everything its class-type arguments
      report; primitive and local types report nothing. */
  lemma ClassReportsArguments(c: JavaTypes.ClassType)
    ensures c in ClassImports(c)
    ensures forall i :: 0 <= i < |c.arguments| && c.arguments[i].Class? ==> ClassImports(c.arguments[i].classType) <= ClassImports(c)
    ensures forall p :: TypeImports(JavaTypes.Primitive(p)) == {}
    ensures forall l :: TypeImports(JavaTypes.Local(l)) == {}
  {
    TypesImportsItems(c.arguments);
  }

  /** A class type with arguments that are not class types reports only
      itself, raw or not. */
  lemma PlainArgumentsReportNothing(c: JavaTypes.ClassType)
    requires forall i :: 0 <= i < |c.arguments| ==> !c.arguments[i].Class?
    ensures ClassImports(c) == {c}
  {
    TypesImportsItems(c.arguments);
  }

  /** Visiting two lists in turn reports the class types of both. */
  lemma AllImportsAppend(a: seq<Tree>, b: seq<Tree>)
    ensures AllImports(a + b) == AllImports(a) + AllImports(b)
  {
    AllImportsItems(a);
    AllImportsItems(b);
    AllImportsItems(a + b);
    forall c | c in AllImports(a + b) ensures c in AllImports(a) + AllImports(b) {
      var i :| 0 <= i < |a + b| && c in ElementImports((a + b)[i]);
      if i < |a| {
        assert (a + b)[i] == a[i];
      } else {
        assert (a + b)[i] == b[i - |a|];
      }
    }
    forall c | c in AllImports(a) + AllImports(b) ensures c in AllImports(a + b) {
      if c in AllImports(a) {
        var i :| 0 <= i < |a| && c in ElementImports(a[i]);
        assert (a + b)[i] == a[i];
      } else {
        var i :| 0 <= i < |b| && c in ElementImports(b[i]);
        assert (a + b)[|a| + i] == b[i];
      }
    }
  }

  /** Joining with a separator that reports nothing, such as `Spacing`,
      reports the same class types as the list itself. */
  lemma JoinKeepsImports(es: seq<Tree>, sep: Tree)
    requires ElementImports(sep) == {}
    ensures AllImports(Interleave(es, sep)) == AllImports(es)
  {
    var js := Interleave(es, sep);
    AllImportsItems(es);
    AllImportsItems(js);
    InterleaveMembers(es, sep);
    forall c | c in AllImports(js) ensures c in AllImports(es) {
      var i :| 0 <= i < |js| && c in ElementImports(js[i]);
      assert js[i] in js;
      var k :| 0 <= k < |es| && es[k] == js[i];
    }
    forall c | c in AllImports(es) ensures c in AllImports(js) {
      var k :| 0 <= k < |es| && c in ElementImports(es[k]);
      InterleaveItem(es, sep, k);
    }
  }

  /** The class types reported by the variables the renderer formats. */
  ghost function MentionedImports(e: Tree): Imported
  {
    set v, c | v in VarsOf(e) && c in VariableImports(v) :: c
  }

  /** The visitor reports exactly the class types of the variables in the
      tree: every node the renderer formats is visited. */
  lemma {:induction false} ImportsAreMentioned(e: Tree)
    ensures ElementImports(e) == MentionedImports(e)
    decreases e
  {
    match e
    case Push(st) =>
      StatementMentioned(st);
    case Concat(st) =>
      StatementMentioned(st);
    case Literal(_) =>
    case Inner(es) =>
      forall d | d in es ensures ElementImports(d) == MentionedImports(d) {
        ImportsAreMentioned(d);
      }
      ChildrenMentioned(es);
    case Nested(c) =>
      ImportsAreMentioned(c);
    case Spacing =>
  }

  /** A statement reports the class types of its own variables, pushed or
      concatenated. */
  lemma StatementMentioned(st: Stmt)
    ensures PartsImports(st.parts) == MentionedImports(Push(st)) == MentionedImports(Concat(st))
  {
    PartsImportsItems(st.parts);
    assert VarsOf(Push(st)) == Statements.Vars(st) == VarsOf(Concat(st));
    forall c | c in PartsImports(st.parts) ensures c in MentionedImports(Push(st)) {
      var i :| 0 <= i < |st.parts| && c in VariableImports(st.parts[i]);
      assert st.parts[i] in Statements.Vars(st);
    }
    forall c | c in MentionedImports(Push(st)) ensures c in PartsImports(st.parts) {
      var v :| v in Statements.Vars(st) && c in VariableImports(v);
      var i :| 0 <= i < |st.parts| && st.parts[i] == v;
    }
  }

  /** The induction step of `Inner`: when every child reports its own
      variables' class types, the list reports those of all of them. */
  lemma ChildrenMentioned(es: seq<Tree>)
    requires forall d :: d in es ==> ElementImports(d) == MentionedImports(d)
    ensures AllImports(es) == MentionedImports(Inner(es))
  {
    AllImportsItems(es);
    forall c | c in AllImports(es) ensures c in MentionedImports(Inner(es)) {
      var i :| 0 <= i < |es| && c in ElementImports(es[i]);
      assert es[i] in es;
      var v :| v in VarsOf(es[i]) && c in VariableImports(v);
    }
    forall c | c in MentionedImports(Inner(es)) ensures c in AllImports(es) {
      var v :| v in VarsOf(Inner(es)) && c in VariableImports(v);
      var d :| d in es && v in VarsOf(d);
      var i :| 0 <= i < |es| && es[i] == d;
    }
  }

  /** A list of parts that holds the given class types at its even
      positions reports each of them. */
  lemma EvenPartsReport(ps: seq<Variable>, ts: seq<JavaTypes.ClassType>)
    requires forall k :: 0 <= k < |ts| ==> 2 * k < |ps| && ps[2 * k] == ClassVariable(ts[k])
    ensures forall k :: 0 <= k < |ts| ==> ClassImports(ts[k]) <= PartsImports(ps)
  {
    PartsImportsItems(ps);
    forall k | 0 <= k < |ts| ensures ClassImports(ts[k]) <= PartsImports(ps) {
      assert VariableImports(ps[2 * k]) == ClassImports(ts[k]);
    }
  }

  /** Text, strings, modifiers and line breaks report nothing; a class
      type variable reports what the class type reports. */
  lemma VariableReports(t: string, c: JavaTypes.ClassType, ms: JavaModifiers.Modifiers)
    ensures VariableImports(Lit(t)) == {} && VariableImports(String(t)) == {} && VariableImports(Variable.Spacing) == {}
    ensures VariableImports(ModifiersVariable(ms)) == {}
    ensures VariableImports(ClassVariable(c)) == ClassImports(c) && c in VariableImports(ClassVariable(c))
  {
  }
}
