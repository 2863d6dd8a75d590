/** The JavaScript builders: functions, classes, methods and constructors.

    Each builder collects arguments and body elements through append-only
    mutators and converts into the same block shape: an opening statement
    on a line of its own, the body joined by `Spacing` and nested one level
    deeper, and a closing `}`.  The conversions are methods that build the
    tree push by push; the tree they build is given by a function, and the
    lemmas say what that tree renders to. */
module JsSpecs {
  import opened Joins
  import opened Formatter
  import Statements
  import opened Document
  import ElementLists
  import Scripts
  import Names
  import JsImports

  type Tree = Element<Scripts.Variable>
  type Stmt = Statements.Statement<Scripts.Variable>
  type Body = ElementLists.Elements<Scripts.Variable>

  const Js := Scripts.JavaScript

  /** Each argument statement as a variable of the argument list. */
  function Wrapped(args: seq<Stmt>): (r: seq<Scripts.Variable>)
    ensures |r| == |args| && forall i :: 0 <= i < |args| ==> r[i] == Scripts.Statement(args[i])
  {
    if args == [] then [] else Wrapped(args[..|args| - 1]) + [Scripts.Statement(args[|args| - 1])]
  }

  /** The argument list the builders put between the parentheses. */
  function ArgumentList(args: seq<Stmt>): Scripts.Variable
  {
    Scripts.Statement(Statements.Statement(Interleave(Wrapped(args), Scripts.Literal(", "))))
  }

  /** The texts of the arguments joined by `", "`. */
  function ArgumentsText(args: seq<Stmt>): string
  {
    JoinStrings(Scripts.Texts(Js, Wrapped(args)), ", ")
  }

  lemma ArgumentListText(args: seq<Stmt>)
    ensures Scripts.Text(Js, ArgumentList(args)) == ArgumentsText(args)
  {
    Scripts.PartsTextInterleave(Js, Wrapped(args), Scripts.Literal(", "));
  }

  /** No arguments give an empty argument list; one gives its own text. */
  lemma ArgumentsTextSmall(args: seq<Stmt>)
    ensures args == [] ==> ArgumentsText(args) == ""
    ensures |args| == 1 ==> ArgumentsText(args) == Scripts.PartsText(Js, args[0].parts)
  {
    JoinStringsSmall(Scripts.Texts(Js, Wrapped(args)), ", ");
  }

  /** The text of a short statement: the texts of its parts in turn. */
  lemma TextOfThree(a: Scripts.Variable, b: Scripts.Variable, c: Scripts.Variable)
    ensures Scripts.PartsText(Js, [a, b, c]) == Scripts.Text(Js, a) + Scripts.Text(Js, b) + Scripts.Text(Js, c)
  {
    Scripts.PartsTextCons(Js, c, []);
    Scripts.PartsTextCons(Js, b, [c]);
    Scripts.PartsTextCons(Js, a, [b, c]);
    assert [a] + [b, c] == [a, b, c] && [b] + [c] == [b, c] && [c] + [] == [c];
    ConcatAssoc(Scripts.Text(Js, a), Scripts.Text(Js, b), Scripts.Text(Js, c));
  }

  lemma TextOfFour(a: Scripts.Variable, b: Scripts.Variable, c: Scripts.Variable, d: Scripts.Variable)
    ensures Scripts.PartsText(Js, [a, b, c, d]) == Scripts.Text(Js, a) + Scripts.Text(Js, b) + Scripts.Text(Js, c) + Scripts.Text(Js, d)
  {
    var ta, tb, tc, td := Scripts.Text(Js, a), Scripts.Text(Js, b), Scripts.Text(Js, c), Scripts.Text(Js, d);
    TextOfThree(b, c, d);
    Scripts.PartsTextCons(Js, a, [b, c, d]);
    assert [a] + [b, c, d] == [a, b, c, d];
    ConcatAssoc(ta, tb, tc);
    ConcatAssoc(ta, tb + tc, td);
  }

  lemma TextOfFive(a: Scripts.Variable, b: Scripts.Variable, c: Scripts.Variable, d: Scripts.Variable, e: Scripts.Variable)
    ensures Scripts.PartsText(Js, [a, b, c, d, e]) == Scripts.Text(Js, a) + Scripts.Text(Js, b) + Scripts.Text(Js, c) + Scripts.Text(Js, d) + Scripts.Text(Js, e)
  {
    var ta, tb, tc, td, te := Scripts.Text(Js, a), Scripts.Text(Js, b), Scripts.Text(Js, c), Scripts.Text(Js, d), Scripts.Text(Js, e);
    TextOfFour(b, c, d, e);
    Scripts.PartsTextCons(Js, a, [b, c, d, e]);
    assert [a] + [b, c, d, e] == [a, b, c, d, e];
    ConcatAssoc(ta, tb, tc);
    ConcatAssoc(ta, tb + tc, td);
    ConcatAssoc(ta, tb + tc + td, te);
  }

  /** The loop the conversions share: the arguments pushed one by one into
      a statement, which is then joined with `", "`. */
  method JoinArguments(args: seq<Stmt>) returns (v: Scripts.Variable)
    ensures v == ArgumentList(args)
  {
    var arguments := Statements.New();
    for i := 0 to |args|
      invariant arguments.parts == Wrapped(args[..i])
    {
      assert args[..i + 1][..i] == args[..i];
      arguments := Statements.Push(arguments, Scripts.Statement(args[i]));
    }
    assert args[..|args|] == args;
    var joined := Statements.Join(arguments, Scripts.Literal(", "));
    v := Scripts.Statement(joined);
  }

  /** The block shape every conversion ends in. */
  function BlockTree(open: Stmt, body: Body): Tree
  {
    Inner([Push(open), Nested(Inner(Interleave(body.elements, Spacing))), Literal("}")])
  }

  method Block(open: Stmt, body: Body) returns (e: Tree)
    ensures e == BlockTree(open, body)
  {
    var out := ElementLists.New();
    out := ElementLists.Push(out, Push(open));
    var joined := ElementLists.Join(body, Spacing);
    out := ElementLists.PushNested(out, ElementLists.IntoElement(joined));
    out := ElementLists.Push(out, Literal("}"));
    e := ElementLists.IntoElement(out);
  }

  /** A block renders as its opening line, the body one level deeper, and
      `}` at the level the block started at. */
  lemma BlockRender(s: FormatterState, open: Stmt, body: Body)
    requires Scripts.PartsText(Js, open.parts) != ""
    ensures Statements.Defined(Scripts.Leaf(Js), VarsOf(BlockTree(open, body)), ())
         && Exec(s, Document.Trace(BlockTree(open, body), Scripts.Leaf(Js), ()))
         == Closed(Exec(Opened(s, Scripts.PartsText(Js, open.parts)), Document.Trace(Inner(Interleave(body.elements, Spacing)), Scripts.Leaf(Js), ())), s.indent, "}")
  {
    var inner: Tree := Inner(Interleave(body.elements, Spacing));
    Scripts.StatementText(Js, open);
    Scripts.LeafWrites(Js, VarsOf(inner));
    Statements.WritesKeepIndent(Scripts.Leaf(Js), VarsOf(inner), ());
    Scripts.LeafWrites(Js, VarsOf(BlockTree(open, body)));
    BlockEffect(s, open, inner, "}", Scripts.Leaf(Js), ());
  }

  /** With an empty body the block is two lines: the opening and `}`. */
  lemma EmptyBlockRender(open: Stmt)
    requires Scripts.PartsText(Js, open.parts) != ""
    ensures Statements.Defined(Scripts.Leaf(Js), VarsOf(BlockTree(open, ElementLists.New())), ())
         && Render(BlockTree(open, ElementLists.New()), Scripts.Leaf(Js), ()) == Scripts.PartsText(Js, open.parts) + "\n}"
  {
    var body: Body := ElementLists.New();
    BlockRender(Fresh, open, body);
    var s1 := Opened(Fresh, Scripts.PartsText(Js, open.parts));
    assert Interleave(body.elements, Spacing) == [];
    assert Document.Trace(Inner([]), Scripts.Leaf(Js), ()) == [];
    assert Exec(s1, []) == s1;
    assert Padding(0) == "";
  }

  /** Builders' imports: a visit of the converted block reports the names
      of the opening statement and of the body. */
  lemma BlockImports(open: Stmt, body: Body)
    ensures JsImports.ElementImports(BlockTree(open, body))
         == JsImports.PartsImports(open.parts) + JsImports.ElementsImports(body)
  {
    var inner: Tree := Inner(Interleave(body.elements, Spacing));
    var close: Tree := Literal("}");
    var es: seq<Tree> := [Push(open), Nested(inner), close];
    JsImports.JoinKeepsImports(body.elements, Spacing);
    assert JsImports.AllImports([close]) == {} by {
      assert [close][1..] == [];
    }
    assert es[1..] == [Nested(inner), close] && es[1..][1..] == [close];
    assert JsImports.AllImports(es[1..]) == JsImports.ElementImports(inner) + JsImports.AllImports([close]);
    assert JsImports.AllImports(es) == JsImports.PartsImports(open.parts) + JsImports.AllImports(es[1..]);
  }

  /** A statement whose parts are literals except one reports the names of
      that one. */
  lemma OnlyImportsOf(ps: seq<Scripts.Variable>, k: nat)
    requires k < |ps| && forall i :: 0 <= i < |ps| && i != k ==> ps[i].Literal?
    ensures JsImports.PartsImports(ps) == JsImports.VariableImports(ps[k])
  {
    JsImports.PartsImportsItems(ps);
  }

  /** The names the argument list reports are those of the arguments. */
  lemma {:induction false} ArgumentImports(args: seq<Stmt>)
    ensures JsImports.VariableImports(ArgumentList(args)) == JsImports.StatementsImports(args)
  {
    var ws := Wrapped(args);
    var js := Interleave(ws, Scripts.Literal(", "));
    JsImports.PartsImportsItems(js);
    InterleaveMembers(ws, Scripts.Literal(", "));
    StatementsImportsItems(args);
    forall n | n in JsImports.PartsImports(js) ensures n in JsImports.StatementsImports(args) {
      var i :| 0 <= i < |js| && n in JsImports.VariableImports(js[i]);
      assert js[i] in js;
      if js[i] != Scripts.Literal(", ") {
        var k :| 0 <= k < |ws| && ws[k] == js[i];
      }
    }
    forall n | n in JsImports.StatementsImports(args) ensures n in JsImports.PartsImports(js) {
      var k :| 0 <= k < |args| && n in JsImports.PartsImports(args[k].parts);
      InterleaveItem(ws, Scripts.Literal(", "), k);
      assert js[2 * k] == Scripts.Statement(args[k]);
    }
  }

  lemma {:induction false} StatementsImportsItems(sts: seq<Stmt>)
    ensures forall n :: n in JsImports.StatementsImports(sts) <==> exists i :: 0 <= i < |sts| && n in JsImports.PartsImports(sts[i].parts)
  {
    if sts != [] {
      StatementsImportsItems(sts[1..]);
      forall n | n in JsImports.StatementsImports(sts) ensures exists i :: 0 <= i < |sts| && n in JsImports.PartsImports(sts[i].parts) {
        if n !in JsImports.PartsImports(sts[0].parts) {
          assert n in JsImports.StatementsImports(sts[1..]);
          var i :| 0 <= i < |sts[1..]| && n in JsImports.PartsImports(sts[1..][i].parts);
          assert sts[1..][i] == sts[i + 1];
        }
      }
      forall n, i | 0 <= i < |sts| && n in JsImports.PartsImports(sts[i].parts) ensures n in JsImports.StatementsImports(sts) {
        if i > 0 {
          assert sts[1..][i - 1] == sts[i];
        }
      }
    }
  }

  // ---------------------------------------------------------------- function

  /** `function name(arguments) {`. */
  function FunctionOpen(name: string, args: seq<Stmt>): Stmt
  {
    Statements.Statement([Scripts.Literal("function "), Scripts.Literal(name), Scripts.Literal("("), ArgumentList(args), Scripts.Literal(") {")])
  }

  function FunctionTree(name: string, args: seq<Stmt>, body: Body): Tree
  {
    BlockTree(FunctionOpen(name, args), body)
  }

  lemma FunctionOpenText(name: string, args: seq<Stmt>)
    ensures Scripts.PartsText(Js, FunctionOpen(name, args).parts) == "function " + name + "(" + ArgumentsText(args) + ") {"
  {
    ArgumentListText(args);
    TextOfFive(Scripts.Literal("function "), Scripts.Literal(name), Scripts.Literal("("), ArgumentList(args), Scripts.Literal(") {"));
  }

  /** A function without a body renders `function name(args) {` and `}`;
      without arguments the parentheses are empty. */
  lemma EmptyFunctionRender(name: string, args: seq<Stmt>)
    ensures Statements.Defined(Scripts.Leaf(Js), VarsOf(FunctionTree(name, args, ElementLists.New())), ())
         && Render(FunctionTree(name, args, ElementLists.New()), Scripts.Leaf(Js), ())
         == "function " + name + "(" + ArgumentsText(args) + ") {\n}"
    ensures args == [] ==> ArgumentsText(args) == ""
  {
    FunctionOpenText(name, args);
    EmptyBlockRender(FunctionOpen(name, args));
    ArgumentsTextSmall(args);
  }

  /** A visit of a converted function reports what a visit of the builder
      reports: the arguments' names, then those of the body. */
  lemma FunctionImports(name: string, args: seq<Stmt>, body: Body)
    ensures JsImports.ElementImports(FunctionTree(name, args, body))
         == JsImports.StatementsImports(args) + JsImports.ElementsImports(body)
  {
    BlockImports(FunctionOpen(name, args), body);
    ArgumentImports(args);
    OnlyImportsOf(FunctionOpen(name, args).parts, 3);
  }

  /** `FunctionSpec`. */
  class FunctionSpec {
    var name: string
    var arguments: seq<Stmt>
    var elements: Body

    /** `FunctionSpec::new`: no arguments and no body. */
    constructor (name: string)
      ensures this.name == name && arguments == [] && elements == ElementLists.New()
    {
      this.name := name;
      arguments := [];
      elements := ElementLists.New();
    }

    /** `push_argument`: appends one argument; nothing else changes. */
    method PushArgument(argument: Stmt)
      modifies this
      ensures arguments == old(arguments) + [argument]
      ensures name == old(name) && elements == old(elements)
    {
      arguments := arguments + [argument];
    }

    /** `push`: appends one element to the body; nothing else changes. */
    method Push(element: Tree)
      modifies this
      ensures elements == ElementLists.Push(old(elements), element)
      ensures name == old(name) && arguments == old(arguments)
    {
      elements := ElementLists.Push(elements, element);
    }

    /** `Imports for FunctionSpec`: the arguments, then the body. */
    function Imports(): (r: set<Names.ImportedName>)
      reads this
      ensures r == JsImports.ElementImports(FunctionTree(name, arguments, elements))
    {
      FunctionImports(name, arguments, elements);
      JsImports.StatementsImports(arguments) + JsImports.ElementsImports(elements)
    }
  }

  /** `From<FunctionSpec> for Element`. */
  method FunctionElement(f: FunctionSpec) returns (e: Tree)
    ensures e == FunctionTree(f.name, f.arguments, f.elements)
  {
    var open := Statements.New();
    open := Statements.Push(open, Scripts.Literal("function "));
    open := Statements.Push(open, Scripts.Literal(f.name));
    open := Statements.Push(open, Scripts.Literal("("));
    var arguments := JoinArguments(f.arguments);
    open := Statements.Push(open, arguments);
    open := Statements.Push(open, Scripts.Literal(") {"));
    assert open == FunctionOpen(f.name, f.arguments);
    e := Block(open, f.elements);
  }

  // ------------------------------------------------------------------- class

  /** `export class name {`, the `export ` only for an exported class. */
  function ClassOpen(exported: bool, name: string): Stmt
  {
    Statements.Statement((if exported then [Scripts.Literal("export ")] else [])
      + [Scripts.Literal("class "), Scripts.Literal(name), Scripts.Literal(" {")])
  }

  /** The class body: the constructors and then the other elements, each
      section only when it is non-empty and joined by `Spacing` within. */
  function ClassBody(constructors: Body, elements: Body): (r: Body)
    ensures |r.elements| == (if ElementLists.IsEmpty(constructors) then 0 else 1) + (if ElementLists.IsEmpty(elements) then 0 else 1)
  {
    ElementLists.Elements(
      (if ElementLists.IsEmpty(constructors) then [] else [Inner(Interleave(constructors.elements, Spacing))])
      + (if ElementLists.IsEmpty(elements) then [] else [Inner(Interleave(elements.elements, Spacing))]))
  }

  function ClassTree(exported: bool, name: string, constructors: Body, elements: Body): Tree
  {
    BlockTree(ClassOpen(exported, name), ClassBody(constructors, elements))
  }

  lemma ClassOpenText(exported: bool, name: string)
    ensures Scripts.PartsText(Js, ClassOpen(exported, name).parts) == (if exported then "export " else "") + "class " + name + " {"
  {
    var tail := [Scripts.Literal("class "), Scripts.Literal(name), Scripts.Literal(" {")];
    TextOfThree(tail[0], tail[1], tail[2]);
    if exported {
      Scripts.PartsTextAppend(Js, [Scripts.Literal("export ")], tail);
      Scripts.PartsTextCons(Js, Scripts.Literal("export "), []);
    } else {
      assert [] + tail == tail;
    }
  }

  /** A class with neither constructors nor other elements renders its
      opening line and `}`. */
  lemma EmptyClassRender(exported: bool, name: string)
    ensures Statements.Defined(Scripts.Leaf(Js), VarsOf(ClassTree(exported, name, ElementLists.New(), ElementLists.New())), ())
         && Render(ClassTree(exported, name, ElementLists.New(), ElementLists.New()), Scripts.Leaf(Js), ())
         == (if exported then "export " else "") + "class " + name + " {\n}"
  {
    ClassOpenText(exported, name);
    assert ClassBody(ElementLists.New(), ElementLists.New()) == ElementLists.New();
    EmptyBlockRender(ClassOpen(exported, name));
  }

  /** When both sections are present they are separated by one `Spacing`. */
  lemma ClassSections(constructors: Body, elements: Body)
    requires !ElementLists.IsEmpty(constructors) && !ElementLists.IsEmpty(elements)
    ensures Interleave(ClassBody(constructors, elements).elements, Spacing)
         == [Inner(Interleave(constructors.elements, Spacing)), Spacing, Inner(Interleave(elements.elements, Spacing))]
  {
    var c: Tree, e: Tree := Inner(Interleave(constructors.elements, Spacing)), Inner(Interleave(elements.elements, Spacing));
    InterleaveSnoc([c], e, Spacing);
    assert ClassBody(constructors, elements).elements == [c] + [e];
  }

  /** `ClassSpec`. */
  class ClassSpec {
    var name: string
    var constructors: Body
    var elements: Body
    var exported: bool

    /** `ClassSpec::new`: not exported, no constructors, no elements. */
    constructor (name: string)
      ensures this.name == name && !exported
      ensures constructors == ElementLists.New() && elements == ElementLists.New()
    {
      this.name := name;
      constructors := ElementLists.New();
      elements := ElementLists.New();
      exported := false;
    }

    /** `export`: marks the class exported; nothing else changes. */
    method Export()
      modifies this
      ensures exported
      ensures name == old(name) && constructors == old(constructors) && elements == old(elements)
    {
      exported := true;
    }

    method PushConstructor(element: Tree)
      modifies this
      ensures constructors == ElementLists.Push(old(constructors), element)
      ensures name == old(name) && elements == old(elements) && exported == old(exported)
    {
      constructors := ElementLists.Push(constructors, element);
    }

    method Push(element: Tree)
      modifies this
      ensures elements == ElementLists.Push(old(elements), element)
      ensures name == old(name) && constructors == old(constructors) && exported == old(exported)
    {
      elements := ElementLists.Push(elements, element);
    }
  }

  /** `From<ClassSpec> for Element`. */
  method ClassElement(c: ClassSpec) returns (e: Tree)
    ensures e == ClassTree(c.exported, c.name, c.constructors, c.elements)
  {
    var open := Statements.New();
    if c.exported {
      open := Statements.Push(open, Scripts.Literal("export "));
    }
    open := Statements.Push(open, Scripts.Literal("class "));
    open := Statements.Push(open, Scripts.Literal(c.name));
    open := Statements.Push(open, Scripts.Literal(" {"));
    assert open == ClassOpen(c.exported, c.name);
    var body := ElementLists.New();
    if !ElementLists.IsEmpty(c.constructors) {
      var joined := ElementLists.Join(c.constructors, Spacing);
      body := ElementLists.Push(body, ElementLists.IntoElement(joined));
    }
    if !ElementLists.IsEmpty(c.elements) {
      var joined := ElementLists.Join(c.elements, Spacing);
      body := ElementLists.Push(body, ElementLists.IntoElement(joined));
    }
    assert body == ClassBody(c.constructors, c.elements);
    e := Block(open, body);
  }

  // ------------------------------------------------------------------ method

  /** `static name(arguments) {`, the `static ` only for a static method. */
  function MethodOpen(isStatic: bool, name: string, args: seq<Stmt>): Stmt
  {
    Statements.Statement((if isStatic then [Scripts.Literal("static ")] else [])
      + [Scripts.Literal(name), Scripts.Literal("("), ArgumentList(args), Scripts.Literal(")"), Scripts.Literal(" {")])
  }

  function MethodTree(isStatic: bool, name: string, args: seq<Stmt>, body: Body): Tree
  {
    BlockTree(MethodOpen(isStatic, name, args), body)
  }

  lemma MethodOpenText(isStatic: bool, name: string, args: seq<Stmt>)
    ensures Scripts.PartsText(Js, MethodOpen(isStatic, name, args).parts)
         == (if isStatic then "static " else "") + name + "(" + ArgumentsText(args) + ") {"
  {
    ArgumentListText(args);
    var at := ArgumentsText(args);
    var tail := [Scripts.Literal(name), Scripts.Literal("("), ArgumentList(args), Scripts.Literal(")"), Scripts.Literal(" {")];
    TextOfFive(tail[0], tail[1], tail[2], tail[3], tail[4]);
    ConcatAssoc(name + "(" + at, ")", " {");
    assert ")" + " {" == ") {";
    if isStatic {
      Scripts.PartsTextCons(Js, Scripts.Literal("static "), tail);
      PrefixFour("static ", name, "(", at, ") {");
    } else {
      assert [] + tail == tail;
      assert "" + name == name;
    }
  }

  /** A prefix before four pieces regroups to the left. */
  lemma PrefixFour(p: string, a: string, b: string, c: string, d: string)
    ensures p + (a + b + c + d) == p + a + b + c + d
  {
    ConcatAssoc(p, a + b + c, d);
    ConcatAssoc(p, a + b, c);
    ConcatAssoc(p, a, b);
  }

  /** A method without a body renders its opening line and `}`. */
  lemma EmptyMethodRender(isStatic: bool, name: string, args: seq<Stmt>)
    ensures Statements.Defined(Scripts.Leaf(Js), VarsOf(MethodTree(isStatic, name, args, ElementLists.New())), ())
         && Render(MethodTree(isStatic, name, args, ElementLists.New()), Scripts.Leaf(Js), ())
         == (if isStatic then "static " else "") + name + "(" + ArgumentsText(args) + ") {\n}"
  {
    MethodOpenText(isStatic, name, args);
    EmptyBlockRender(MethodOpen(isStatic, name, args));
  }

  /** `MethodSpec`. */
  class MethodSpec {
    var name: string
    var arguments: seq<Stmt>
    var elements: Body
    var isStatic: bool

    /** `MethodSpec::new`: an instance method with no arguments and no body. */
    constructor (name: string)
      ensures this.name == name && !isStatic && arguments == [] && elements == ElementLists.New()
    {
      this.name := name;
      arguments := [];
      elements := ElementLists.New();
      isStatic := false;
    }

    /** `MethodSpec::with_static`: the same, but static. */
    constructor WithStatic(name: string)
      ensures this.name == name && isStatic && arguments == [] && elements == ElementLists.New()
    {
      this.name := name;
      arguments := [];
      elements := ElementLists.New();
      isStatic := true;
    }

    method PushArgument(argument: Stmt)
      modifies this
      ensures arguments == old(arguments) + [argument]
      ensures name == old(name) && elements == old(elements) && isStatic == old(isStatic)
    {
      arguments := arguments + [argument];
    }

    method Push(element: Tree)
      modifies this
      ensures elements == ElementLists.Push(old(elements), element)
      ensures name == old(name) && arguments == old(arguments) && isStatic == old(isStatic)
    {
      elements := ElementLists.Push(elements, element);
    }
  }

  /** `From<MethodSpec> for Element`. */
  method MethodElement(m: MethodSpec) returns (e: Tree)
    ensures e == MethodTree(m.isStatic, m.name, m.arguments, m.elements)
  {
    var open := Statements.New();
    var arguments := JoinArguments(m.arguments);
    if m.isStatic {
      open := Statements.Push(open, Scripts.Literal("static "));
    }
    open := Statements.Push(open, Scripts.Literal(m.name));
    open := Statements.Push(open, Scripts.Literal("("));
    open := Statements.Push(open, arguments);
    open := Statements.Push(open, Scripts.Literal(")"));
    open := Statements.Push(open, Scripts.Literal(" {"));
    assert open == MethodOpen(m.isStatic, m.name, m.arguments);
    e := Block(open, m.elements);
  }

  // ------------------------------------------------------------- constructor

  /** `constructor(arguments) {`. */
  function ConstructorOpen(args: seq<Stmt>): Stmt
  {
    Statements.Statement([Scripts.Literal("constructor("), ArgumentList(args), Scripts.Literal(")"), Scripts.Literal(" {")])
  }

  function ConstructorTree(args: seq<Stmt>, body: Body): Tree
  {
    BlockTree(ConstructorOpen(args), body)
  }

  lemma ConstructorOpenText(args: seq<Stmt>)
    ensures Scripts.PartsText(Js, ConstructorOpen(args).parts) == "constructor(" + ArgumentsText(args) + ") {"
  {
    ArgumentListText(args);
    TextOfFour(Scripts.Literal("constructor("), ArgumentList(args), Scripts.Literal(")"), Scripts.Literal(" {"));
  }

  /** A constructor without a body renders its opening line and `}`. */
  lemma EmptyConstructorRender(args: seq<Stmt>)
    ensures Statements.Defined(Scripts.Leaf(Js), VarsOf(ConstructorTree(args, ElementLists.New())), ())
         && Render(ConstructorTree(args, ElementLists.New()), Scripts.Leaf(Js), ())
         == "constructor(" + ArgumentsText(args) + ") {\n}"
  {
    ConstructorOpenText(args);
    EmptyBlockRender(ConstructorOpen(args));
  }

  /** `ConstructorSpec`. */
  class ConstructorSpec {
    var arguments: seq<Stmt>
    var elements: Body

    constructor ()
      ensures arguments == [] && elements == ElementLists.New()
    {
      arguments := [];
      elements := ElementLists.New();
    }

    method PushArgument(argument: Stmt)
      modifies this
      ensures arguments == old(arguments) + [argument] && elements == old(elements)
    {
      arguments := arguments + [argument];
    }

    method Push(element: Tree)
      modifies this
      ensures elements == ElementLists.Push(old(elements), element) && arguments == old(arguments)
    {
      elements := ElementLists.Push(elements, element);
    }
  }

  /** `From<ConstructorSpec> for Element`. */
  method ConstructorElement(c: ConstructorSpec) returns (e: Tree)
    ensures e == ConstructorTree(c.arguments, c.elements)
  {
    var open := Statements.New();
    var arguments := JoinArguments(c.arguments);
    open := Statements.Push(open, Scripts.Literal("constructor("));
    open := Statements.Push(open, arguments);
    open := Statements.Push(open, Scripts.Literal(")"));
    open := Statements.Push(open, Scripts.Literal(" {"));
    assert open == ConstructorOpen(c.arguments);
    e := Block(open, c.elements);
  }
}
