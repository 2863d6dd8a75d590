/** The Java member builders: annotations, fields, arguments and
    constructors.

    A builder object collects its parts through appending mutators; what a
    container stores is a copy, so each builder has a value (`FieldDecl`,
    `ArgumentDecl`, `ConstructorDecl`) that the containers hold, and the
    conversions work on those values. */
module JavaMembers {
  import opened Wrappers
  import opened Formatter
  import opened Joins
  import Statements
  import Document
  import ElementLists
  import JavaTypes
  import JavaModifiers
  import opened JavaVariables
  import opened JavaCommon
  import opened Blocks

  type Body = ElementLists.Elements<Variable>

  // ------------------------------------------------------------- modifiers

  /** The modifiers and a space, only when there are modifiers. */
  function ModsParts(ms: JavaModifiers.Modifiers): seq<Variable>
  {
    if JavaModifiers.IsEmpty(ms) then [] else [ModifiersVariable(ms), Lit(" ")]
  }

  /** What those parts write. */
  function ModsText(ms: JavaModifiers.Modifiers): string
  {
    if JavaModifiers.IsEmpty(ms) then "" else JavaModifiers.ModifiersText(ms) + " "
  }

  /** The modifiers formatted and pushed, then the space. */
  method PushModifiers(open: Stmt, ms: JavaModifiers.Modifiers) returns (r: Stmt)
    ensures r.parts == open.parts + ModsParts(ms)
  {
    r := open;
    if !JavaModifiers.IsEmpty(ms) {
      var v := FromModifiers(ms);
      r := Statements.Push(r, v);
      r := Statements.Push(r, Lit(" "));
    }
  }

  /** The modifier parts write the modifiers and one space, or nothing at
      all when the set is empty. */
  lemma ModsPartsText<X>(ms: JavaModifiers.Modifiers, leaf: Statements.Leaf<Variable, X>, x: X)
    requires WritesText(leaf, Lit, x)
    ensures TextParts(ModsWords(ms), Lit) == ModsParts(ms)
    ensures Flatten(ModsWords(ms)) == ModsText(ms)
    ensures ModsText(ms) == "" <==> JavaModifiers.IsEmpty(ms)
  {
    FlattenSmall(JavaModifiers.ModifiersText(ms), " ", "");
    if !JavaModifiers.IsEmpty(ms) {
      assert TextParts(ModsWords(ms), Lit)[0] == ModifiersVariable(ms);
    }
  }

  function ModsWords(ms: JavaModifiers.Modifiers): seq<string>
  {
    if JavaModifiers.IsEmpty(ms) then [] else [JavaModifiers.ModifiersText(ms), " "]
  }

  // ----------------------------------------------------------- annotations

  /** An annotation: its type and its argument statements. */
  datatype Annotation = Annotation(ty: JavaTypes.Type, arguments: seq<Stmt>)

  /** `AnnotationSpec::new`: no arguments. */
  function NewAnnotation(ty: JavaTypes.Type): (r: Annotation)
    ensures r.ty == ty && r.arguments == []
  {
    Annotation(ty, [])
  }

  /** `AnnotationSpec::push_argument`: one more argument at the end. */
  function PushAnnotationArgument(a: Annotation, st: Stmt): (r: Annotation)
    ensures r.ty == a.ty && r.arguments == a.arguments + [st]
  {
    Annotation(a.ty, a.arguments + [st])
  }

  /** `@` and the type. */
  function AnnotationHead(a: Annotation): Stmt
  {
    Statements.Statement([Lit("@"), Type(a.ty)])
  }

  /** `From<AnnotationSpec> for Element`: one line, the head alone, or the
      head and the arguments separated by `, ` between parentheses. */
  function AnnotationTree(a: Annotation): Tree
  {
    if a.arguments == [] then Document.Inner([Document.Push(AnnotationHead(a))])
    else Document.Inner([Document.Push(Statements.Statement([
      Statement(AnnotationHead(a)), Lit("("), Statement(Statements.Statement(JoinedParts(a.arguments, Lit(", ")))), Lit(")")]))])
  }

  /** An annotation pushed into a statement: the tree as a variable. */
  function AnnotationVariable(a: Annotation): (r: Variable)
    ensures r.Element? && r.element == AnnotationTree(a)
  {
    Element(AnnotationTree(a))
  }

  /** An annotation without arguments is the line `@` and its type; with
      `n` arguments the line holds its head, `(`, the `2n - 1` parts of the
      arguments joined by `, ` and `)`. */
  lemma AnnotationShape<X>(a: Annotation, leaf: Statements.Leaf<Variable, X>, x: X, tyText: string)
    requires WritesText(leaf, Lit, x)
    requires forall d: nat :: leaf.requires(Type(a.ty), d, x) && leaf(Type(a.ty), d, x) == [Write(tyText)]
    ensures a.arguments == [] ==> (Statements.Defined(leaf, Document.VarsOf(AnnotationTree(a)), x)
                                   && Document.Render(AnnotationTree(a), leaf, x) == "@" + tyText)
    ensures a.arguments != [] ==> (AnnotationTree(a).elements[0].statement.parts[2].statement.parts == JoinedParts(a.arguments, Lit(", "))
                                   && |JoinedParts(a.arguments, Lit(", "))| == 2 * |a.arguments| - 1)
  {
    JoinedShape(a.arguments, Lit(", "));
    if a.arguments == [] {
      var head := AnnotationHead(a);
      PartsText(head.parts, ["@", tyText], leaf, x);
      FlattenSmall("@", tyText, "");
      var p: Tree := Document.Push(head);
      Document.StatementEffect(Fresh, head, leaf, x);
      Document.InnerTraceOne(p, leaf, x);
      assert Padding(0) == "";
    }
  }

  function AnnotationTrees(anns: seq<Annotation>): (r: seq<Tree>)
    ensures |r| == |anns| && forall i :: 0 <= i < |anns| ==> r[i] == AnnotationTree(anns[i])
  {
    seq(|anns|, i requires 0 <= i < |anns| => AnnotationTree(anns[i]))
  }

  /** The loop every builder opens with: each annotation as its own
      element, in order. */
  method AnnotationElements(anns: seq<Annotation>) returns (out: Body)
    ensures out.elements == AnnotationTrees(anns)
  {
    out := ElementLists.New();
    for i := 0 to |anns|
      invariant out.elements == AnnotationTrees(anns[..i])
    {
      assert AnnotationTrees(anns[..i + 1]) == AnnotationTrees(anns[..i]) + [AnnotationTree(anns[i])];
      out := ElementLists.Push(out, AnnotationTree(anns[i]));
    }
    assert anns[..|anns|] == anns;
  }

  // ----------------------------------------------------------------- field

  /** What a `FieldSpec` holds. */
  datatype FieldDecl = FieldDecl(modifiers: JavaModifiers.Modifiers, ty: JavaTypes.Type, name: string,
                                 annotations: seq<Annotation>, initialize: Option<Stmt>)

  class FieldSpec {
    var modifiers: JavaModifiers.Modifiers
    var ty: JavaTypes.Type
    var name: string
    var annotations: seq<Annotation>
    var initialize: Option<Stmt>

    function Value(): FieldDecl
      reads this
    {
      FieldDecl(modifiers, ty, name, annotations, initialize)
    }

    /** `FieldSpec::new`: no annotations and no initializer. */
    constructor (modifiers: JavaModifiers.Modifiers, ty: JavaTypes.Type, name: string)
      ensures Value() == FieldDecl(modifiers, ty, name, [], None)
    {
      this.modifiers := modifiers;
      this.ty := ty;
      this.name := name;
      annotations := [];
      initialize := None;
    }

    /** `push_annotation`: one more annotation; nothing else changes. */
    method PushAnnotation(a: Annotation)
      modifies this
      ensures Value() == old(Value()).(annotations := old(annotations) + [a])
    {
      annotations := annotations + [a];
    }

    /** `initialize`: sets the initializer; nothing else changes. */
    method Initialize(st: Stmt)
      modifies this
      ensures Value() == old(Value()).(initialize := Some(st))
    {
      initialize := Some(st);
    }
  }

  /** `From<FieldSpec> for Variable`: the field's name as text. */
  function FieldVariable(f: FieldDecl): (r: Variable)
    ensures r == Lit(f.name)
  {
    Lit(f.name)
  }

  /** ` = ` and the initializer, only when there is one. */
  function InitParts(init: Option<Stmt>): seq<Variable>
  {
    if init.Some? then [Lit(" = "), Statement(init.value)] else []
  }

  /** The declaration: modifiers, type, a space, the name, initializer. */
  function FieldDeclaration(f: FieldDecl): Stmt
  {
    Statements.Statement(ModsParts(f.modifiers) + [Type(f.ty), Lit(" "), Lit(f.name)] + InitParts(f.initialize))
  }

  /** `From<FieldSpec> for Statement`: a statement of one tree variable,
      the annotations and then the declaration. */
  function FieldStatement(f: FieldDecl): Stmt
  {
    Single(Element(Document.Inner(AnnotationTrees(f.annotations) + [Document.Push(FieldDeclaration(f))])))
  }

  /** The conversion push by push. */
  method FieldIntoStatement(f: FieldDecl) returns (out: Stmt)
    ensures out == FieldStatement(f)
  {
    var elements := AnnotationElements(f.annotations);
    var s := Statements.New();
    s := PushModifiers(s, f.modifiers);
    s := Statements.Push(s, Type(f.ty));
    s := Statements.Push(s, Lit(" "));
    s := Statements.Push(s, Lit(f.name));
    if f.initialize.Some? {
      s := Statements.Push(s, Lit(" = "));
      s := Statements.Push(s, Statement(f.initialize.value));
    }
    assert s == FieldDeclaration(f);
    elements := ElementLists.Push(elements, Document.Push(s));
    out := Statements.New();
    out := Statements.Push(out, Element(ElementLists.IntoElement(elements)));
  }

  /** With a leaf that writes the type as `tyText` and the initializer as
      `initText`, the declaration is `[modifiers ]type name[ = init]`. */
  lemma FieldDeclarationText<X>(f: FieldDecl, leaf: Statements.Leaf<Variable, X>, x: X, tyText: string, initText: string)
    requires WritesText(leaf, Lit, x)
    requires forall d: nat :: leaf.requires(Type(f.ty), d, x) && leaf(Type(f.ty), d, x) == [Write(tyText)]
    requires f.initialize.Some? ==> forall d: nat :: leaf.requires(Statement(f.initialize.value), d, x)
                                                 && leaf(Statement(f.initialize.value), d, x) == [Write(initText)]
    ensures Statements.Defined(leaf, Statements.Vars(FieldDeclaration(f)), x)
         && Statements.Writes(leaf, Statements.Vars(FieldDeclaration(f)), x)
         && Document.StatementText(FieldDeclaration(f), leaf, x)
            == ModsText(f.modifiers) + tyText + " " + f.name + (if f.initialize.Some? then " = " + initText else "")
  {
    ModsPartsText(f.modifiers, leaf, x);
    var mods := ModsWords(f.modifiers);
    var mid := [tyText, " ", f.name];
    var tail := if f.initialize.Some? then [" = ", initText] else [];
    WrittenAsText(leaf, mods, Lit, x);
    DeclarationWrittenAs(f, leaf, x, tyText, initText);
    Blocks.WrittenAsAppend(leaf, ModsParts(f.modifiers), mods, [Type(f.ty), Lit(" "), Lit(f.name)], mid, x);
    Blocks.WrittenAsAppend(leaf, ModsParts(f.modifiers) + [Type(f.ty), Lit(" "), Lit(f.name)], mods + mid, InitParts(f.initialize), tail, x);
    PartsText(FieldDeclaration(f).parts, mods + mid + tail, leaf, x);
    FlattenAppend(mods + mid, tail);
    FlattenAppend(mods, mid);
    FlattenSmall(tyText, " ", f.name);
    FlattenSmall(" = ", initText, "");
    var mt := ModsText(f.modifiers);
    ConcatAssoc(mt, tyText, " ");
    ConcatAssoc(mt, tyText + " ", f.name);
  }

  /** The type, the space, the name and the initializer are written as
      their texts. */
  lemma DeclarationWrittenAs<X>(f: FieldDecl, leaf: Statements.Leaf<Variable, X>, x: X, tyText: string, initText: string)
    requires WritesText(leaf, Lit, x)
    requires forall d: nat :: leaf.requires(Type(f.ty), d, x) && leaf(Type(f.ty), d, x) == [Write(tyText)]
    requires f.initialize.Some? ==> forall d: nat :: leaf.requires(Statement(f.initialize.value), d, x)
                                                 && leaf(Statement(f.initialize.value), d, x) == [Write(initText)]
    ensures Blocks.WrittenAs(leaf, [Type(f.ty), Lit(" "), Lit(f.name)], [tyText, " ", f.name], x)
    ensures Blocks.WrittenAs(leaf, InitParts(f.initialize), if f.initialize.Some? then [" = ", initText] else [], x)
  {
  }


  // -------------------------------------------------------------- argument

  /** What an `ArgumentSpec` holds. */
  datatype ArgumentDecl = ArgumentDecl(modifiers: JavaModifiers.Modifiers, ty: JavaTypes.Type, name: string, annotations: seq<Annotation>)

  class ArgumentSpec {
    var modifiers: JavaModifiers.Modifiers
    var ty: JavaTypes.Type
    var name: string
    var annotations: seq<Annotation>

    function Value(): ArgumentDecl
      reads this
    {
      ArgumentDecl(modifiers, ty, name, annotations)
    }

    /** `ArgumentSpec::new`: no annotations. */
    constructor (modifiers: JavaModifiers.Modifiers, ty: JavaTypes.Type, name: string)
      ensures Value() == ArgumentDecl(modifiers, ty, name, [])
    {
      this.modifiers := modifiers;
      this.ty := ty;
      this.name := name;
      annotations := [];
    }

    /** `push_annotation`: one more annotation; nothing else changes. */
    method PushAnnotation(a: Annotation)
      modifies this
      ensures Value() == old(Value()).(annotations := old(annotations) + [a])
    {
      annotations := annotations + [a];
    }
  }

  /** `From<ArgumentSpec> for Variable`: the argument's name as text. */
  function ArgumentVariable(a: ArgumentDecl): (r: Variable)
    ensures r == Lit(a.name)
  {
    Lit(a.name)
  }

  /** Each annotation followed by a space. */
  function AnnotationPrefix(anns: seq<Annotation>): seq<Variable>
  {
    if anns == [] then [] else AnnotationPrefix(anns[..|anns| - 1]) + [AnnotationVariable(anns[|anns| - 1]), Lit(" ")]
  }

  /** The prefix has two parts per annotation: the annotation, then `" "`. */
  lemma {:induction false} AnnotationPrefixShape(anns: seq<Annotation>)
    ensures |AnnotationPrefix(anns)| == 2 * |anns|
    ensures forall k :: 0 <= k < |anns| ==> (AnnotationPrefix(anns)[2 * k] == AnnotationVariable(anns[k])
                                      && AnnotationPrefix(anns)[2 * k + 1] == Lit(" "))
  {
    if anns != [] {
      var init := anns[..|anns| - 1];
      AnnotationPrefixShape(init);
      var front := AnnotationPrefix(init);
      var all := AnnotationPrefix(anns);
      assert all == front + [AnnotationVariable(anns[|anns| - 1]), Lit(" ")];
      forall k | 0 <= k < |anns| ensures all[2 * k] == AnnotationVariable(anns[k]) && all[2 * k + 1] == Lit(" ") {
        if k < |init| {
          assert all[2 * k] == front[2 * k] && all[2 * k + 1] == front[2 * k + 1];
          assert init[k] == anns[k];
        }
      }
    }
  }

  /** `From<ArgumentSpec> for Statement`: the annotations, each followed by
      a space, the modifiers, the type, a space and the name. */
  function ArgumentStatement(a: ArgumentDecl): Stmt
  {
    Statements.Statement(AnnotationPrefix(a.annotations) + ModsParts(a.modifiers) + [Type(a.ty), Lit(" "), Lit(a.name)])
  }

  /** The conversion push by push. */
  method ArgumentIntoStatement(a: ArgumentDecl) returns (s: Stmt)
    ensures s == ArgumentStatement(a)
  {
    s := Statements.New();
    for i := 0 to |a.annotations|
      invariant s.parts == AnnotationPrefix(a.annotations[..i])
    {
      assert a.annotations[..i + 1][..i] == a.annotations[..i];
      s := Statements.Push(s, AnnotationVariable(a.annotations[i]));
      s := Statements.Push(s, Lit(" "));
    }
    assert a.annotations[..|a.annotations|] == a.annotations;
    s := PushModifiers(s, a.modifiers);
    s := Statements.Push(s, Type(a.ty));
    s := Statements.Push(s, Lit(" "));
    s := Statements.Push(s, Lit(a.name));
  }

  /** Without annotations, and with a leaf writing the type as `tyText`,
      the argument is `[modifiers ]type name`. */
  lemma ArgumentText<X>(a: ArgumentDecl, leaf: Statements.Leaf<Variable, X>, x: X, tyText: string)
    requires a.annotations == []
    requires WritesText(leaf, Lit, x)
    requires forall d: nat :: leaf.requires(Type(a.ty), d, x) && leaf(Type(a.ty), d, x) == [Write(tyText)]
    ensures Statements.Defined(leaf, Statements.Vars(ArgumentStatement(a)), x)
         && Statements.Writes(leaf, Statements.Vars(ArgumentStatement(a)), x)
         && Document.StatementText(ArgumentStatement(a), leaf, x) == ModsText(a.modifiers) + tyText + " " + a.name
  {
    ModsPartsText(a.modifiers, leaf, x);
    var mid := [tyText, " ", a.name];
    var texts := ModsWords(a.modifiers) + mid;
    var parts := ArgumentStatement(a).parts;
    assert parts == ModsParts(a.modifiers) + [Type(a.ty), Lit(" "), Lit(a.name)];
    forall i, d: nat | 0 <= i < |parts| ensures leaf.requires(parts[i], d, x) && leaf(parts[i], d, x) == [Write(texts[i])] {
      var m := |ModsWords(a.modifiers)|;
      if i < m {
        assert parts[i] == TextParts(ModsWords(a.modifiers), Lit)[i];
      } else if i == m {
        assert parts[i] == Type(a.ty);
      } else {
        assert parts[i] == Lit(texts[i]);
      }
    }
    PartsText(parts, texts, leaf, x);
    FlattenAppend(ModsWords(a.modifiers), mid);
    FlattenSmall(tyText, " ", a.name);
  }

  function ArgumentStatements(args: seq<ArgumentDecl>): (r: seq<Stmt>)
    ensures |r| == |args| && forall i :: 0 <= i < |args| ==> r[i] == ArgumentStatement(args[i])
  {
    seq(|args|, i requires 0 <= i < |args| => ArgumentStatement(args[i]))
  }

  /** Every argument converted, in order. */
  method ArgumentsIntoStatements(args: seq<ArgumentDecl>) returns (out: seq<Stmt>)
    ensures out == ArgumentStatements(args)
  {
    out := [];
    for i := 0 to |args|
      invariant out == ArgumentStatements(args[..i])
    {
      var s := ArgumentIntoStatement(args[i]);
      assert ArgumentStatements(args[..i + 1]) == ArgumentStatements(args[..i]) + [s];
      out := out + [s];
    }
    assert args[..|args|] == args;
  }

  // ----------------------------------------------------------- constructor

  /** What a `ConstructorSpec` holds. */
  datatype ConstructorDecl = ConstructorDecl(modifiers: JavaModifiers.Modifiers, annotations: seq<Annotation>,
                                             arguments: seq<ArgumentDecl>, throws: seq<JavaTypes.ClassType>, elements: Body)

  class ConstructorSpec {
    var modifiers: JavaModifiers.Modifiers
    var annotations: seq<Annotation>
    var arguments: seq<ArgumentDecl>
    var throws: seq<JavaTypes.ClassType>
    var elements: Body

    function Value(): ConstructorDecl
      reads this
    {
      ConstructorDecl(modifiers, annotations, arguments, throws, elements)
    }

    /** `ConstructorSpec::new`: every list empty. */
    constructor (modifiers: JavaModifiers.Modifiers)
      ensures Value() == ConstructorDecl(modifiers, [], [], [], ElementLists.New())
    {
      this.modifiers := modifiers;
      annotations := [];
      arguments := [];
      throws := [];
      elements := ElementLists.New();
    }

    /** `push_annotation`: appends to the annotations only. */
    method PushAnnotation(a: Annotation)
      modifies this
      ensures Value() == old(Value()).(annotations := old(annotations) + [a])
    {
      annotations := annotations + [a];
    }

    /** `push_argument`: appends to the arguments only. */
    method PushArgument(a: ArgumentDecl)
      modifies this
      ensures Value() == old(Value()).(arguments := old(arguments) + [a])
    {
      arguments := arguments + [a];
    }

    /** `throws`: appends to the thrown types only. */
    method Throws(t: JavaTypes.ClassType)
      modifies this
      ensures Value() == old(Value()).(throws := old(throws) + [t])
    {
      throws := throws + [t];
    }

    /** `push`: appends to the body only. */
    method Push(e: Tree)
      modifies this
      ensures Value() == old(Value()).(elements := ElementLists.Push(old(elements), e))
    {
      elements := ElementLists.Push(elements, e);
    }
  }

  /** The parameter list: `()` without arguments; otherwise `(`, a nested
      line of the arguments joined by `, `, and a line `)`. */
  function ParameterParts(args: seq<ArgumentDecl>): seq<Variable>
  {
    if args == [] then [Lit("()")]
    else [Lit("("),
          Element(Document.Nested(Document.Push(Statements.Statement(JoinedParts(ArgumentStatements(args), Lit(", ")))))),
          Element(Document.Push(Single(Lit(")"))))]
  }

  /** ` throws ` and the types joined by `, `, only when there are some. */
  function ThrowsParts(throws: seq<JavaTypes.ClassType>): seq<Variable>
  {
    if throws == [] then [] else [Lit(" throws "), Statement(Statements.Statement(Interleave(ClassVariables(throws), Lit(", "))))]
  }

  /** The opening line: modifiers, the enclosing class's name, parameters,
      the throws clause and ` {`. */
  function ConstructorOpen(c: ConstructorDecl, enclosing: string): Stmt
  {
    Statements.Statement(ModsParts(c.modifiers) + [Lit(enclosing)] + ParameterParts(c.arguments) + ThrowsParts(c.throws) + [Lit(" {")])
  }

  /** `as_element(enclosing)`: the annotations, the opening line, the body
      one level deeper (not separated by empty lines) and `}`. */
  function ConstructorTree(c: ConstructorDecl, enclosing: string): Tree
  {
    Document.Inner(AnnotationTrees(c.annotations)
      + [Document.Push(ConstructorOpen(c, enclosing)), Document.Nested(ElementLists.IntoElement(c.elements)), Document.Literal("}")])
  }

  /** The parameter list pushed onto the opening line. */
  method PushParameters(open: Stmt, args: seq<ArgumentDecl>) returns (r: Stmt)
    ensures r.parts == open.parts + ParameterParts(args)
  {
    if |args| == 0 {
      r := Statements.Push(open, Lit("()"));
    } else {
      var sts := ArgumentsIntoStatements(args);
      var joined := JoinStatements(sts, Lit(", "));
      r := Statements.Push(open, Lit("("));
      r := Statements.Push(r, Element(Document.Nested(Document.Push(joined))));
      r := Statements.Push(r, Element(Document.Push(Single(Lit(")")))));
    }
  }

  /** The throws clause pushed onto the opening line. */
  method PushThrows(open: Stmt, throws: seq<JavaTypes.ClassType>) returns (r: Stmt)
    ensures r.parts == open.parts + ThrowsParts(throws)
  {
    r := open;
    if |throws| > 0 {
      var arguments := Statements.FromSeq(throws, ClassVariable);
      assert arguments.parts == ClassVariables(throws);
      var joined := Statements.Join(arguments, Lit(", "));
      r := Statements.Push(r, Lit(" throws "));
      r := Statements.Push(r, Statement(joined));
    }
  }

  /** `as_element`, push by push. */
  method AsElement(c: ConstructorDecl, enclosing: string) returns (e: Tree)
    ensures e == ConstructorTree(c, enclosing)
  {
    var elements := AnnotationElements(c.annotations);
    var open := Statements.New();
    open := PushModifiers(open, c.modifiers);
    open := Statements.Push(open, Lit(enclosing));
    open := PushParameters(open, c.arguments);
    open := PushThrows(open, c.throws);
    open := Statements.Push(open, Lit(" {"));
    assert open == ConstructorOpen(c, enclosing);
    elements := ElementLists.Push(elements, Document.Push(open));
    elements := ElementLists.PushNested(elements, ElementLists.IntoElement(c.elements));
    elements := ElementLists.Push(elements, Document.Literal("}"));
    e := ElementLists.IntoElement(elements);
  }

  /** The thrown types take `2n - 1` parts, the types at even positions and
      `, ` between them; the parameters are `()` exactly when there are no
      arguments, and otherwise hold the `2n - 1` parts of the joined
      arguments. */
  lemma ConstructorClauses(c: ConstructorDecl)
    ensures c.throws == [] <==> ThrowsParts(c.throws) == []
    ensures c.throws != [] ==> |ThrowsParts(c.throws)[1].statement.parts| == 2 * |c.throws| - 1
    ensures forall k :: 0 <= k < |c.throws| ==> ThrowsParts(c.throws)[1].statement.parts[2 * k] == ClassVariable(c.throws[k])
    ensures c.arguments == [] <==> ParameterParts(c.arguments) == [Lit("()")]
    ensures c.arguments != [] ==>
              var inner := ParameterParts(c.arguments)[1].element.element.statement.parts;
              |inner| == 2 * |c.arguments| - 1
              && forall k :: 0 <= k < |c.arguments| ==> inner[2 * k] == Statement(ArgumentStatement(c.arguments[k]))
  {
    JoinedShape(ArgumentStatements(c.arguments), Lit(", "));
    forall k | 0 <= k < |c.throws| ensures ThrowsParts(c.throws)[1].statement.parts[2 * k] == ClassVariable(c.throws[k]) {
      InterleaveItem(ClassVariables(c.throws), Lit(", "), k);
    }
  }

  /** A constructor without annotations, arguments or thrown types renders
      as `[modifiers ]Name() {`, the body one level deeper and `}`. */
  lemma PlainConstructorRender<X>(s: FormatterState, c: ConstructorDecl, enclosing: string, leaf: Statements.Leaf<Variable, X>, x: X)
    requires c.annotations == [] && c.arguments == [] && c.throws == []
    requires WritesText(leaf, Lit, x)
    requires forall e :: e in c.elements.elements ==> Statements.Defined(leaf, Document.VarsOf(e), x) && Statements.KeepsIndent(leaf, Document.VarsOf(e), x)
    ensures Statements.Defined(leaf, Document.VarsOf(ConstructorTree(c, enclosing)), x)
    ensures Statements.Defined(leaf, Document.VarsOf(Document.Inner(c.elements.elements)), x)
    ensures Exec(s, Document.Trace(ConstructorTree(c, enclosing), leaf, x))
         == Document.Closed(Exec(Document.Opened(s, ModsText(c.modifiers) + enclosing + "() {"),
                                 Document.Trace(Document.Inner(c.elements.elements), leaf, x)), s.indent, "}")
  {
    var open := ConstructorOpen(c, enclosing);
    var body := Document.Inner(c.elements.elements);
    ConstructorOpenText(c, enclosing, leaf, x);
    InnerKeeps(c.elements.elements, leaf, x);
    assert ConstructorTree(c, enclosing) == Document.Inner([Document.Push(open), Document.Nested(body), Document.Literal("}")]);
    Document.BlockEffect(s, open, body, "}", leaf, x);
  }

  /** The opening line of a constructor without annotations, arguments or
      exceptions: modifiers, the class name, `() {`. */
  lemma ConstructorOpenText<X>(c: ConstructorDecl, enclosing: string, leaf: Statements.Leaf<Variable, X>, x: X)
    requires c.annotations == [] && c.arguments == [] && c.throws == []
    requires WritesText(leaf, Lit, x)
    ensures Statements.Defined(leaf, Statements.Vars(ConstructorOpen(c, enclosing)), x)
         && Statements.Writes(leaf, Statements.Vars(ConstructorOpen(c, enclosing)), x)
         && Document.StatementText(ConstructorOpen(c, enclosing), leaf, x) == ModsText(c.modifiers) + enclosing + "() {"
  {
    var words := ModsWords(c.modifiers) + [enclosing, "()", " {"];
    ModsPartsText(c.modifiers, leaf, x);
    assert ConstructorOpen(c, enclosing).parts == TextParts(words, Lit);
    TextStatement(words, leaf, Lit, x);
    FlattenAppend(ModsWords(c.modifiers), [enclosing, "()", " {"]);
    FlattenSmall(enclosing, "()", " {");
    EmptyArgumentsWord();
    ConcatAssoc(enclosing, "()", " {");
    ConcatAssoc(ModsText(c.modifiers), enclosing, "() {");
  }

  lemma EmptyArgumentsWord()
    ensures "()" + " {" == "() {"
  {
  }

  lemma PublicFooWords()
    ensures "public " + "Foo" + "() {" == "public Foo() {"
  {
    assert "public " + "Foo" == "public Foo";
  }

  /** The modifiers of a public member and their space. */
  lemma PublicModsText()
    ensures ModsText(JavaModifiers.Insert(JavaModifiers.New(), JavaModifiers.Public)) == "public "
  {
    var ms := JavaModifiers.Insert(JavaModifiers.New(), JavaModifiers.Public);
    JavaModifiers.PublicExample();
    JavaModifiers.TextEmptyIff(ms);
  }

  /** An empty block opened by the line `t` on a fresh formatter is `t`
      and a line `}`. */
  lemma EmptyBlockText(t: string)
    ensures Document.Closed(Exec(Document.Opened(Fresh, t), []), 0, "}").out == t + "\n}"
  {
    assert Padding(0) == "";
  }

  /** `public Foo() {` and `}` for an empty public constructor of `Foo`. */
  lemma EmptyConstructorExample<X>(leaf: Statements.Leaf<Variable, X>, x: X)
    requires WritesText(leaf, Lit, x)
    ensures var c := ConstructorDecl(JavaModifiers.Insert(JavaModifiers.New(), JavaModifiers.Public), [], [], [], ElementLists.New());
            Statements.Defined(leaf, Document.VarsOf(ConstructorTree(c, "Foo")), x)
            && Document.Render(ConstructorTree(c, "Foo"), leaf, x) == "public Foo() {\n}"
  {
    var ms := JavaModifiers.Insert(JavaModifiers.New(), JavaModifiers.Public);
    var c := ConstructorDecl(ms, [], [], [], ElementLists.New());
    var body: Tree := Document.Inner([]);
    PlainConstructorRender(Fresh, c, "Foo", leaf, x);
    PublicModsText();
    PublicFooWords();
    assert Document.Trace(body, leaf, x) == [];
    EmptyBlockText("public Foo() {");
  }
}
