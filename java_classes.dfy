/** The Java container builders: classes, enums and interfaces.

    Each builder collects annotations, members and free elements through
    appending mutators and turns into one tree: the annotations, an opening
    line ending in ` {`, the body one level deeper and a closing `}`.  The
    members of a class or an enum body are separated by empty lines. */
module JavaClasses {
  import opened Wrappers
  import opened Formatter
  import opened Joins
  import Statements
  import Document
  import ElementLists
  import JavaTypes
  import JavaModifiers
  import JavaImports
  import opened JavaVariables
  import opened JavaCommon
  import opened JavaMembers
  import opened Blocks

  // ------------------------------------------------------ shared sections

  /** One field declaration on its own line, ending in `;`. */
  function FieldLine(f: FieldDecl): Tree
  {
    Document.Push(Statements.Push(FieldStatement(f), Lit(";")))
  }

  function FieldLines(fs: seq<FieldDecl>): (r: seq<Tree>)
    ensures |r| == |fs| && forall i :: 0 <= i < |fs| ==> r[i] == FieldLine(fs[i])
  {
    seq(|fs|, i requires 0 <= i < |fs| => FieldLine(fs[i]))
  }

  /** The fields as one section of the body, only when there are fields. */
  function FieldsSection(fs: seq<FieldDecl>): seq<Tree>
  {
    if fs == [] then [] else [Document.Inner(FieldLines(fs))]
  }

  function ConstructorTrees(cs: seq<ConstructorDecl>, enclosing: string): (r: seq<Tree>)
    ensures |r| == |cs| && forall i :: 0 <= i < |cs| ==> r[i] == ConstructorTree(cs[i], enclosing)
  {
    seq(|cs|, i requires 0 <= i < |cs| => ConstructorTree(cs[i], enclosing))
  }

  /** The field loop: each field converted, `;` pushed, one line each. */
  method FieldsIntoElements(fs: seq<FieldDecl>) returns (out: Body)
    ensures out.elements == FieldLines(fs)
  {
    out := ElementLists.New();
    for i := 0 to |fs|
      invariant out.elements == FieldLines(fs[..i])
    {
      var field := FieldIntoStatement(fs[i]);
      field := Statements.Push(field, Lit(";"));
      assert FieldLines(fs[..i + 1]) == FieldLines(fs[..i]) + [FieldLine(fs[i])];
      out := ElementLists.Push(out, Document.Push(field));
    }
    assert fs[..|fs|] == fs;
  }

  /** The field section pushed onto a body. */
  method PushFields(body: Body, fs: seq<FieldDecl>) returns (r: Body)
    ensures r.elements == body.elements + FieldsSection(fs)
  {
    r := body;
    if |fs| > 0 {
      var fields := FieldsIntoElements(fs);
      r := ElementLists.Push(r, ElementLists.IntoElement(fields));
    }
  }

  /** The constructor loop: each constructor as an element, in order. */
  method PushConstructors(body: Body, cs: seq<ConstructorDecl>, enclosing: string) returns (r: Body)
    ensures r.elements == body.elements + ConstructorTrees(cs, enclosing)
  {
    r := body;
    for i := 0 to |cs|
      invariant r.elements == body.elements + ConstructorTrees(cs[..i], enclosing)
    {
      var e := AsElement(cs[i], enclosing);
      ConstructorTreesSnoc(cs, i, enclosing);
      ConcatAssoc(body.elements, ConstructorTrees(cs[..i], enclosing), [e]);
      r := ElementLists.Push(r, e);
    }
    assert cs[..|cs|] == cs;
  }

  lemma ConstructorTreesSnoc(cs: seq<ConstructorDecl>, i: nat, enclosing: string)
    requires i < |cs|
    ensures ConstructorTrees(cs[..i + 1], enclosing) == ConstructorTrees(cs[..i], enclosing) + [ConstructorTree(cs[i], enclosing)]
  {
  }

  /** The element loop: every element pushed, in order. */
  method PushAll(body: Body, es: seq<Tree>) returns (r: Body)
    ensures r.elements == body.elements + es
  {
    r := body;
    for i := 0 to |es|
      invariant r.elements == body.elements + es[..i]
    {
      assert es[..i + 1] == es[..i] + [es[i]];
      r := ElementLists.Push(r, es[i]);
    }
    assert es[..|es|] == es;
  }

  /** The body of a class or an enum, given its sections: one level deeper,
      the sections separated by empty lines. */
  function SpacedBody(sections: seq<Tree>): Tree
  {
    Document.Nested(Document.Inner(Interleave(sections, Document.Spacing)))
  }

  /** The last steps every container shares: the body joined by empty
      lines and nested, then `}`. */
  method CloseContainer(elements: Body, body: Body) returns (e: Tree)
    ensures e == Document.Inner(elements.elements + [SpacedBody(body.elements), Document.Literal("}")])
  {
    var joined := ElementLists.Join(body, Document.Spacing);
    var out := ElementLists.PushNested(elements, ElementLists.IntoElement(joined));
    out := ElementLists.Push(out, Document.Literal("}"));
    e := ElementLists.IntoElement(out);
  }

  /** The annotations of a container and its opening line. */
  function Opening(anns: seq<Annotation>, open: Stmt): seq<Tree>
  {
    AnnotationTrees(anns) + [Document.Push(open)]
  }

  // ----------------------------------------------------------------- class

  /** What a `ClassSpec` holds. */
  datatype ClassDecl = ClassDecl(modifiers: JavaModifiers.Modifiers, name: string, annotations: seq<Annotation>,
                                 fields: seq<FieldDecl>, constructors: seq<ConstructorDecl>, elements: Body,
                                 superclass: Option<JavaTypes.ClassType>, implements: seq<JavaTypes.ClassType>)

  class ClassSpec {
    var modifiers: JavaModifiers.Modifiers
    var name: string
    var annotations: seq<Annotation>
    var fields: seq<FieldDecl>
    var constructors: seq<ConstructorDecl>
    var elements: Body
    var superclass: Option<JavaTypes.ClassType>
    var implements: seq<JavaTypes.ClassType>

    function Value(): ClassDecl
      reads this
    {
      ClassDecl(modifiers, name, annotations, fields, constructors, elements, superclass, implements)
    }

    /** `ClassSpec::new`: no members, no superclass, no interfaces. */
    constructor (modifiers: JavaModifiers.Modifiers, name: string)
      ensures Value() == ClassDecl(modifiers, name, [], [], [], ElementLists.New(), None, [])
    {
      this.modifiers := modifiers;
      this.name := name;
      annotations := [];
      fields := [];
      constructors := [];
      elements := ElementLists.New();
      superclass := None;
      implements := [];
    }

    /** `extends`: sets the superclass, replacing an earlier one. */
    method Extends(t: JavaTypes.ClassType)
      modifies this
      ensures Value() == old(Value()).(superclass := Some(t))
    {
      superclass := Some(t);
    }

    /** `ClassLike::implements`: one more interface. */
    method Implements(t: JavaTypes.ClassType)
      modifies this
      ensures Value() == old(Value()).(implements := old(implements) + [t])
    {
      implements := implements + [t];
    }

    /** `ClassLike::push_annotation`. */
    method PushAnnotation(a: Annotation)
      modifies this
      ensures Value() == old(Value()).(annotations := old(annotations) + [a])
    {
      annotations := annotations + [a];
    }

    /** `ClassLike::push_field`. */
    method PushField(f: FieldDecl)
      modifies this
      ensures Value() == old(Value()).(fields := old(fields) + [f])
    {
      fields := fields + [f];
    }

    /** `ClassLike::fields`: the fields pushed so far, in order. */
    function Fields(): (r: seq<FieldDecl>)
      reads this
      ensures r == Value().fields
    {
      fields
    }

    /** `ClassLike::push_constructor`. */
    method PushConstructor(c: ConstructorDecl)
      modifies this
      ensures Value() == old(Value()).(constructors := old(constructors) + [c])
    {
      constructors := constructors + [c];
    }

    /** `ContainerSpec::push`. */
    method Push(e: Tree)
      modifies this
      ensures Value() == old(Value()).(elements := ElementLists.Push(old(elements), e))
    {
      elements := ElementLists.Push(elements, e);
    }
  }

  /** ` extends ` and the superclass, only when there is one. */
  function ExtendsParts(superclass: Option<JavaTypes.ClassType>): seq<Variable>
  {
    if superclass.Some? then [Lit(" extends "), ClassVariable(superclass.value)] else []
  }

  /** The opening line of a class. */
  function ClassOpen(c: ClassDecl): Stmt
  {
    Statements.Statement(ModsParts(c.modifiers) + [Lit("class "), Lit(c.name)] + ExtendsParts(c.superclass)
                         + ImplementsParts(c.implements) + [Lit(" {")])
  }

  /** The sections of a class body: the fields (if any), the constructors,
      then the other elements. */
  function ClassBody(c: ClassDecl): seq<Tree>
  {
    FieldsSection(c.fields) + ConstructorTrees(c.constructors, c.name) + c.elements.elements
  }

  /** `From<ClassSpec> for Element`. */
  function ClassTree(c: ClassDecl): Tree
  {
    Document.Inner(Opening(c.annotations, ClassOpen(c)) + [SpacedBody(ClassBody(c)), Document.Literal("}")])
  }

  method ClassOpenStatement(c: ClassDecl) returns (open: Stmt)
    ensures open == ClassOpen(c)
  {
    open := Statements.New();
    open := PushModifiers(open, c.modifiers);
    open := Statements.Push(open, Lit("class "));
    open := Statements.Push(open, Lit(c.name));
    ghost var head := ModsParts(c.modifiers) + [Lit("class "), Lit(c.name)];
    assert open.parts == head;
    if c.superclass.Some? {
      open := Statements.Push(open, Lit(" extends "));
      open := Statements.Push(open, ClassVariable(c.superclass.value));
    }
    assert open.parts == head + ExtendsParts(c.superclass);
    open := Implements(c.implements, open);
    open := Statements.Push(open, Lit(" {"));
  }

  /** The conversion, section by section. */
  method ClassIntoElement(c: ClassDecl) returns (e: Tree)
    ensures e == ClassTree(c)
  {
    var elements := ClassOpening(c);
    var body := ClassSections(c);
    e := CloseContainer(elements, body);
  }

  /** The annotations, then the opening line. */
  method ClassOpening(c: ClassDecl) returns (elements: Body)
    ensures elements.elements == Opening(c.annotations, ClassOpen(c))
  {
    elements := AnnotationElements(c.annotations);
    var open := ClassOpenStatement(c);
    elements := ElementLists.Push(elements, Document.Push(open));
  }

  /** The body, section by section. */
  method ClassSections(c: ClassDecl) returns (body: Body)
    ensures body.elements == ClassBody(c)
  {
    body := ElementLists.New();
    body := PushFields(body, c.fields);
    assert body.elements == FieldsSection(c.fields);
    body := PushConstructors(body, c.constructors, c.name);
    body := PushAll(body, c.elements.elements);
  }

  /** The opening line of a class, given what its superclass and its
      interfaces are written as. */
  function ClassHeader(c: ClassDecl, extendsText: string, implementsTexts: seq<string>): string
  {
    ModsText(c.modifiers) + "class " + c.name + ClassClauses(c, extendsText, implementsTexts) + " {"
  }

  /** The superclass and interface clauses of the opening line. */
  function ClassClauses(c: ClassDecl, extendsText: string, implementsTexts: seq<string>): string
  {
    (if c.superclass.Some? then " extends " + extendsText else "")
    + (if c.implements == [] then "" else " implements " + JoinStrings(implementsTexts, ", "))
  }

  function ExtendsWords(superclass: Option<JavaTypes.ClassType>, text: string): seq<string>
  {
    if superclass.Some? then [" extends ", text] else []
  }

  /** The opening line writes the modifiers, `class `, the name, the
      superclass and the interfaces, with a leaf that writes the types as
      `extendsText` and `implementsTexts`. */
  lemma ClassOpenText<X>(c: ClassDecl, extendsText: string, implementsTexts: seq<string>, leaf: Statements.Leaf<Variable, X>, x: X)
    requires WritesText(leaf, Lit, x)
    requires c.superclass.Some? ==> WrittenAs(leaf, [ClassVariable(c.superclass.value)], [extendsText], x)
    requires WrittenAs(leaf, ClassVariables(c.implements), implementsTexts, x)
    ensures Statements.Defined(leaf, Statements.Vars(ClassOpen(c)), x)
         && Statements.Writes(leaf, Statements.Vars(ClassOpen(c)), x)
         && Document.StatementText(ClassOpen(c), leaf, x) == ClassHeader(c, extendsText, implementsTexts)
  {
    var middle := ExtendsParts(c.superclass) + ImplementsParts(c.implements);
    var words := ExtendsWords(c.superclass, extendsText) + ImplementsWords(implementsTexts);
    ClassMiddleText(c, extendsText, implementsTexts, leaf, x);
    ClassOpenParts(c);
    HeaderText(c.modifiers, "class ", c.name, middle, words, ClassOpen(c), leaf, x);
  }

  lemma ClassOpenParts(c: ClassDecl)
    ensures ClassOpen(c).parts == ModsParts(c.modifiers) + [Lit("class "), Lit(c.name)]
                                  + (ExtendsParts(c.superclass) + ImplementsParts(c.implements)) + [Lit(" {")]
  {
  }

  /** The superclass and interface clauses together. */
  lemma ClassMiddleText<X>(c: ClassDecl, extendsText: string, implementsTexts: seq<string>, leaf: Statements.Leaf<Variable, X>, x: X)
    requires WritesText(leaf, Lit, x)
    requires c.superclass.Some? ==> WrittenAs(leaf, [ClassVariable(c.superclass.value)], [extendsText], x)
    requires WrittenAs(leaf, ClassVariables(c.implements), implementsTexts, x)
    ensures WrittenAs(leaf, ExtendsParts(c.superclass) + ImplementsParts(c.implements),
                      ExtendsWords(c.superclass, extendsText) + ImplementsWords(implementsTexts), x)
    ensures Flatten(ExtendsWords(c.superclass, extendsText) + ImplementsWords(implementsTexts))
         == ClassClauses(c, extendsText, implementsTexts)
  {
    var ext, impl := ExtendsWords(c.superclass, extendsText), ImplementsWords(implementsTexts);
    ExtendsText(c.superclass, extendsText, leaf, x);
    ImplementsText(c.implements, implementsTexts, leaf, x);
    WrittenAsAppend(leaf, ExtendsParts(c.superclass), ext, ImplementsParts(c.implements), impl, x);
    FlattenAppend(ext, impl);
  }

  /** The superclass clause writes ` extends ` and the superclass, or
      nothing. */
  lemma ExtendsText<X>(superclass: Option<JavaTypes.ClassType>, text: string, leaf: Statements.Leaf<Variable, X>, x: X)
    requires WritesText(leaf, Lit, x)
    requires superclass.Some? ==> WrittenAs(leaf, [ClassVariable(superclass.value)], [text], x)
    ensures WrittenAs(leaf, ExtendsParts(superclass), ExtendsWords(superclass, text), x)
    ensures Flatten(ExtendsWords(superclass, text)) == if superclass.Some? then " extends " + text else ""
  {
    var rest := if superclass.Some? then [ClassVariable(superclass.value)] else [];
    KeywordThen(" extends ", rest, [text], superclass.Some?, leaf, x);
    assert ExtendsParts(superclass) == if superclass.Some? then [Lit(" extends ")] + rest else [];
    assert ExtendsWords(superclass, text) == if superclass.Some? then [" extends "] + [text] else [];
  }

  /** A keyword and parts after it, only when `present`. */
  lemma KeywordThen<X>(keyword: string, parts: seq<Variable>, texts: seq<string>, present: bool, leaf: Statements.Leaf<Variable, X>, x: X)
    requires WritesText(leaf, Lit, x)
    requires present ==> WrittenAs(leaf, parts, texts, x)
    requires present ==> |texts| == 1
    ensures WrittenAs(leaf, if present then [Lit(keyword)] + parts else [], if present then [keyword] + texts else [], x)
    ensures Flatten(if present then [keyword] + texts else []) == if present then keyword + texts[0] else ""
  {
    if present {
      WrittenAsText(leaf, [keyword], Lit, x);
      assert TextParts([keyword], Lit) == [Lit(keyword)];
      WrittenAsAppend(leaf, [Lit(keyword)], [keyword], parts, texts, x);
      assert [keyword] + texts == [keyword, texts[0]];
      FlattenSmall(keyword, texts[0], "");
    }
  }

  /** An opening line of modifiers, a keyword, a name, some further parts
      and ` {`, written side by side. */
  lemma HeaderText<X>(ms: JavaModifiers.Modifiers, keyword: string, name: string, middle: seq<Variable>, words: seq<string>,
                      open: Stmt, leaf: Statements.Leaf<Variable, X>, x: X)
    requires WritesText(leaf, Lit, x)
    requires WrittenAs(leaf, middle, words, x)
    requires open.parts == ModsParts(ms) + [Lit(keyword), Lit(name)] + middle + [Lit(" {")]
    ensures Statements.Defined(leaf, Statements.Vars(open), x) && Statements.Writes(leaf, Statements.Vars(open), x)
    ensures Document.StatementText(open, leaf, x) == ModsText(ms) + keyword + name + Flatten(words) + " {"
  {
    var mods, head, close := ModsWords(ms), [keyword, name], [" {"];
    ModsPartsText(ms, leaf, x);
    WrittenAsText(leaf, mods, Lit, x);
    WrittenAsText(leaf, head, Lit, x);
    WrittenAsText(leaf, close, Lit, x);
    assert TextParts(head, Lit) == [Lit(keyword), Lit(name)];
    assert TextParts(close, Lit) == [Lit(" {")];
    var p1 := ModsParts(ms) + [Lit(keyword), Lit(name)];
    WrittenAsAppend(leaf, ModsParts(ms), mods, [Lit(keyword), Lit(name)], head, x);
    WrittenAsAppend(leaf, p1, mods + head, middle, words, x);
    WrittenAsAppend(leaf, p1 + middle, mods + head + words, [Lit(" {")], close, x);
    PartsText(open.parts, mods + head + words + close, leaf, x);
    FlattenAppend(mods + head + words, close);
    FlattenAppend(mods + head, words);
    FlattenAppend(mods, head);
    FlattenSmall(keyword, name, "");
    FlattenSmall(" {", "", "");
    ConcatAssoc(ModsText(ms), keyword, name);
  }

  /** A class renders as its annotations, its opening line, its body one
      level deeper and `}` back at the outer level. */
  lemma ClassRender<X>(s: FormatterState, c: ClassDecl, extendsText: string, implementsTexts: seq<string>, leaf: Statements.Leaf<Variable, X>, x: X)
    requires WritesText(leaf, Lit, x)
    requires c.superclass.Some? ==> WrittenAs(leaf, [ClassVariable(c.superclass.value)], [extendsText], x)
    requires WrittenAs(leaf, ClassVariables(c.implements), implementsTexts, x)
    requires forall e :: e in AnnotationTrees(c.annotations) ==> Statements.Defined(leaf, Document.VarsOf(e), x) && Statements.KeepsIndent(leaf, Document.VarsOf(e), x)
    requires forall e :: e in ClassBody(c) ==> Statements.Defined(leaf, Document.VarsOf(e), x) && Statements.KeepsIndent(leaf, Document.VarsOf(e), x)
    ensures Statements.Defined(leaf, Document.VarsOf(Document.Inner(AnnotationTrees(c.annotations))), x)
    ensures Statements.Defined(leaf, Document.VarsOf(Document.Inner(Interleave(ClassBody(c), Document.Spacing))), x)
    ensures Statements.Defined(leaf, Document.VarsOf(ClassTree(c)), x)
    ensures Exec(s, Document.Trace(ClassTree(c), leaf, x))
         == Document.Closed(Exec(Document.Opened(Exec(s, Document.Trace(Document.Inner(AnnotationTrees(c.annotations)), leaf, x)),
                                                 ClassHeader(c, extendsText, implementsTexts)),
                                 Document.Trace(Document.Inner(Interleave(ClassBody(c), Document.Spacing)), leaf, x)),
                            s.indent, "}")
  {
    ClassOpenText(c, extendsText, implementsTexts, leaf, x);
    ContainerRender(s, c.annotations, ClassOpen(c), ClassBody(c), leaf, x);
  }

  /** The shape all three containers share, rendered. */
  lemma ContainerRender<X>(s: FormatterState, anns: seq<Annotation>, open: Stmt, body: seq<Tree>, leaf: Statements.Leaf<Variable, X>, x: X)
    requires Statements.Defined(leaf, Statements.Vars(open), x) && Statements.Writes(leaf, Statements.Vars(open), x)
    requires Document.StatementText(open, leaf, x) != ""
    requires forall e :: e in AnnotationTrees(anns) ==> Statements.Defined(leaf, Document.VarsOf(e), x) && Statements.KeepsIndent(leaf, Document.VarsOf(e), x)
    requires forall e :: e in body ==> Statements.Defined(leaf, Document.VarsOf(e), x) && Statements.KeepsIndent(leaf, Document.VarsOf(e), x)
    ensures Statements.Defined(leaf, Document.VarsOf(Document.Inner(AnnotationTrees(anns))), x)
    ensures Statements.Defined(leaf, Document.VarsOf(Document.Inner(Interleave(body, Document.Spacing))), x)
    ensures Statements.Defined(leaf, Document.VarsOf(Document.Inner(Opening(anns, open) + [SpacedBody(body), Document.Literal("}")])), x)
    ensures Exec(s, Document.Trace(Document.Inner(Opening(anns, open) + [SpacedBody(body), Document.Literal("}")]), leaf, x))
         == Document.Closed(Exec(Document.Opened(Exec(s, Document.Trace(Document.Inner(AnnotationTrees(anns)), leaf, x)),
                                                 Document.StatementText(open, leaf, x)),
                                 Document.Trace(Document.Inner(Interleave(body, Document.Spacing)), leaf, x)),
                            s.indent, "}")
  {
    var lead := AnnotationTrees(anns);
    var inside: Tree := Document.Inner(Interleave(body, Document.Spacing));
    SpacedKeeps(body, leaf, x);
    InnerKeeps(lead, leaf, x);
    Document.TraceKeepsIndent(Document.Inner(lead), leaf, x, s);
    assert Opening(anns, open) + [SpacedBody(body), Document.Literal("}")]
        == lead + [Document.Push(open), Document.Nested(inside), Document.Literal("}")];
    LeadBlock(s, lead, open, inside, leaf, x);
  }

  /** A class without annotations and members is its opening line and `}`
      on the next line. */
  lemma EmptyClassRender<X>(c: ClassDecl, extendsText: string, implementsTexts: seq<string>, leaf: Statements.Leaf<Variable, X>, x: X)
    requires c.annotations == [] && c.fields == [] && c.constructors == [] && c.elements.elements == []
    requires WritesText(leaf, Lit, x)
    requires c.superclass.Some? ==> WrittenAs(leaf, [ClassVariable(c.superclass.value)], [extendsText], x)
    requires WrittenAs(leaf, ClassVariables(c.implements), implementsTexts, x)
    ensures Statements.Defined(leaf, Document.VarsOf(ClassTree(c)), x)
         && Document.Render(ClassTree(c), leaf, x) == ClassHeader(c, extendsText, implementsTexts) + "\n}"
  {
    assert ClassBody(c) == [];
    ClassRender(Fresh, c, extendsText, implementsTexts, leaf, x);
    NoAnnotationTrace(c.annotations, leaf, x);
    assert Document.Trace(Document.Inner(Interleave(ClassBody(c), Document.Spacing)), leaf, x) == [];
    EmptyBlockText(ClassHeader(c, extendsText, implementsTexts));
  }

  /** The `public class` header and the closing brace, as one string. */
  lemma PublicClassWords(name: string)
    ensures "public " + "class " + name + "" + " {" + "\n}" == "public class " + name + " {\n}"
  {
    assert "public " + "class " == "public class ";
    assert " {" + "\n}" == " {\n}";
  }

  /** A new public class is `public class `, its name and ` {`, then `}`
      on the next line; for `Foo`, `public class Foo {` and `}`. */
  lemma PublicClassExample<X>(ms: JavaModifiers.Modifiers, name: string, leaf: Statements.Leaf<Variable, X>, x: X)
    requires ms == JavaModifiers.Insert(JavaModifiers.New(), JavaModifiers.Public)
    requires WritesText(leaf, Lit, x)
    ensures var c := ClassDecl(ms, name, [], [], [], ElementLists.New(), None, []);
            Statements.Defined(leaf, Document.VarsOf(ClassTree(c)), x)
            && Document.Render(ClassTree(c), leaf, x) == "public class " + name + " {\n}"
  {
    var c := ClassDecl(ms, name, [], [], [], ElementLists.New(), None, []);
    assert WrittenAs(leaf, ClassVariables(c.implements), [], x);
    EmptyClassRender(c, "", [], leaf, x);
    var h := ClassHeader(c, "", []);
    assert h == "public " + "class " + name + "" + " {" by {
      PublicModsText();
      assert ClassClauses(c, "", []) == "";
    }
    PublicClassWords(name);
  }

  /** The superclass and every interface of a class are reported as
      imports, with their arguments. */
  lemma ClassHeaderImports(c: ClassDecl)
    ensures c.superclass.Some? ==> JavaImports.ClassImports(c.superclass.value) <= JavaImports.ElementImports(ClassTree(c))
    ensures forall t :: t in c.implements ==> JavaImports.ClassImports(t) <= JavaImports.ElementImports(ClassTree(c))
  {
    var open := ClassOpen(c);
    OpenImports(c.annotations, open, [SpacedBody(ClassBody(c)), Document.Literal("}")]);
    ImplementsShape(c.implements);
    if c.superclass.Some? {
      assert ClassVariable(c.superclass.value) in open.parts;
      JavaImports.VariableReports("", c.superclass.value, c.modifiers);
    }
    forall t | t in c.implements ensures JavaImports.ClassImports(t) <= JavaImports.ElementImports(ClassTree(c)) {
      var k :| 0 <= k < |c.implements| && c.implements[k] == t;
      assert ClassVariable(t) in ImplementsParts(c.implements);
      assert ClassVariable(t) in open.parts;
      JavaImports.VariableReports("", t, c.modifiers);
    }
  }

  /** Whatever a variable of the opening line reports, the container
      reports. */
  lemma OpenImports(anns: seq<Annotation>, open: Stmt, rest: seq<Tree>)
    ensures forall v :: v in open.parts ==> JavaImports.VariableImports(v) <= JavaImports.AllImports(Opening(anns, open) + rest)
  {
    var all := Opening(anns, open) + rest;
    var p: Tree := Document.Push(open);
    JavaImports.AllImportsItems(all);
    JavaImports.PartsImportsItems(open.parts);
    assert all[|AnnotationTrees(anns)|] == p;
    forall v | v in open.parts ensures JavaImports.VariableImports(v) <= JavaImports.AllImports(all) {
      var i :| 0 <= i < |open.parts| && open.parts[i] == v;
      assert JavaImports.VariableImports(v) <= JavaImports.ElementImports(p);
    }
  }

  // ------------------------------------------------------------------ enum

  /** What an `EnumSpec` holds. */
  datatype EnumDecl = EnumDecl(modifiers: JavaModifiers.Modifiers, name: string, annotations: seq<Annotation>,
                               values: Body, fields: seq<FieldDecl>, constructors: seq<ConstructorDecl>,
                               elements: Body, implements: seq<JavaTypes.ClassType>)

  class EnumSpec {
    var modifiers: JavaModifiers.Modifiers
    var name: string
    var annotations: seq<Annotation>
    var values: Body
    var fields: seq<FieldDecl>
    var constructors: seq<ConstructorDecl>
    var elements: Body
    var implements: seq<JavaTypes.ClassType>

    function Value(): EnumDecl
      reads this
    {
      EnumDecl(modifiers, name, annotations, values, fields, constructors, elements, implements)
    }

    /** `EnumSpec::new`: no values, members or interfaces. */
    constructor (modifiers: JavaModifiers.Modifiers, name: string)
      ensures Value() == EnumDecl(modifiers, name, [], ElementLists.New(), [], [], ElementLists.New(), [])
    {
      this.modifiers := modifiers;
      this.name := name;
      annotations := [];
      values := ElementLists.New();
      fields := [];
      constructors := [];
      elements := ElementLists.New();
      implements := [];
    }

    /** `push_value`: one more enum constant. */
    method PushValue(e: Tree)
      modifies this
      ensures Value() == old(Value()).(values := ElementLists.Push(old(values), e))
    {
      values := ElementLists.Push(values, e);
    }

    /** `ClassLike::implements`. */
    method Implements(t: JavaTypes.ClassType)
      modifies this
      ensures Value() == old(Value()).(implements := old(implements) + [t])
    {
      implements := implements + [t];
    }

    /** `ClassLike::push_annotation`. */
    method PushAnnotation(a: Annotation)
      modifies this
      ensures Value() == old(Value()).(annotations := old(annotations) + [a])
    {
      annotations := annotations + [a];
    }

    /** `ClassLike::push_field`. */
    method PushField(f: FieldDecl)
      modifies this
      ensures Value() == old(Value()).(fields := old(fields) + [f])
    {
      fields := fields + [f];
    }

    /** `ClassLike::fields`. */
    function Fields(): (r: seq<FieldDecl>)
      reads this
      ensures r == Value().fields
    {
      fields
    }

    /** `ClassLike::push_constructor`. */
    method PushConstructor(c: ConstructorDecl)
      modifies this
      ensures Value() == old(Value()).(constructors := old(constructors) + [c])
    {
      constructors := constructors + [c];
    }

    /** `ContainerSpec::push`. */
    method Push(e: Tree)
      modifies this
      ensures Value() == old(Value()).(elements := ElementLists.Push(old(elements), e))
    {
      elements := ElementLists.Push(elements, e);
    }
  }

  /** The opening line of an enum. */
  function EnumOpen(c: EnumDecl): Stmt
  {
    Statements.Statement(ModsParts(c.modifiers) + [Lit("enum "), Lit(c.name)] + ImplementsParts(c.implements) + [Lit(" {")])
  }

  /** What goes between two constants: `,` continuing the line. */
  function ValueSeparator(): Tree
  {
    Document.Inner([Document.Concat(Single(Lit(",")))])
  }

  /** The constants separated by `,`, then `;` continuing the line. */
  function ValuesSection(values: Body): Tree
  {
    Document.Inner([Document.Inner(Interleave(values.elements, ValueSeparator())), Document.Concat(Single(Lit(";")))])
  }

  /** The sections of an enum body: the constants (always), the fields (if
      any), the constructors and the other elements. */
  function EnumBody(c: EnumDecl): seq<Tree>
  {
    [ValuesSection(c.values)] + FieldsSection(c.fields) + ConstructorTrees(c.constructors, c.name) + c.elements.elements
  }

  /** `From<EnumSpec> for Element`. */
  function EnumTree(c: EnumDecl): Tree
  {
    Document.Inner(Opening(c.annotations, EnumOpen(c)) + [SpacedBody(EnumBody(c)), Document.Literal("}")])
  }

  method EnumOpenStatement(c: EnumDecl) returns (open: Stmt)
    ensures open == EnumOpen(c)
  {
    open := Statements.New();
    open := PushModifiers(open, c.modifiers);
    open := Statements.Push(open, Lit("enum "));
    open := Statements.Push(open, Lit(c.name));
    open := Implements(c.implements, open);
    open := Statements.Push(open, Lit(" {"));
  }

  /** The constants joined by the separator, then `;`. */
  method ValuesIntoElement(values: Body) returns (e: Tree)
    ensures e == ValuesSection(values)
  {
    var comma := Statements.New();
    comma := Statements.Push(comma, Lit(","));
    var joiner := ElementLists.New();
    joiner := ElementLists.Push(joiner, Document.Concat(comma));
    var joined := ElementLists.Join(values, ElementLists.IntoElement(joiner));
    var out := ElementLists.New();
    out := ElementLists.Push(out, ElementLists.IntoElement(joined));
    var endl := Statements.New();
    endl := Statements.Push(endl, Lit(";"));
    out := ElementLists.Push(out, Document.Concat(endl));
    e := ElementLists.IntoElement(out);
  }

  /** The conversion, section by section. */
  method EnumIntoElement(c: EnumDecl) returns (e: Tree)
    ensures e == EnumTree(c)
  {
    var elements := AnnotationElements(c.annotations);
    var open := EnumOpenStatement(c);
    elements := ElementLists.Push(elements, Document.Push(open));
    var body := ElementLists.New();
    var values := ValuesIntoElement(c.values);
    body := ElementLists.Push(body, values);
    body := PushFields(body, c.fields);
    body := PushConstructors(body, c.constructors, c.name);
    body := PushAll(body, c.elements.elements);
    assert body.elements == EnumBody(c);
    assert elements.elements == Opening(c.annotations, EnumOpen(c));
    e := CloseContainer(elements, body);
  }

  /** The opening line of an enum, given what its interfaces are written as. */
  function EnumHeader(c: EnumDecl, implementsTexts: seq<string>): string
  {
    ModsText(c.modifiers) + "enum " + c.name
    + (if c.implements == [] then "" else " implements " + JoinStrings(implementsTexts, ", ")) + " {"
  }

  lemma EnumOpenText<X>(c: EnumDecl, implementsTexts: seq<string>, leaf: Statements.Leaf<Variable, X>, x: X)
    requires WritesText(leaf, Lit, x)
    requires WrittenAs(leaf, ClassVariables(c.implements), implementsTexts, x)
    ensures Statements.Defined(leaf, Statements.Vars(EnumOpen(c)), x)
         && Statements.Writes(leaf, Statements.Vars(EnumOpen(c)), x)
         && Document.StatementText(EnumOpen(c), leaf, x) == EnumHeader(c, implementsTexts)
  {
    ImplementsText(c.implements, implementsTexts, leaf, x);
    HeaderText(c.modifiers, "enum ", c.name, ImplementsParts(c.implements), ImplementsWords(implementsTexts), EnumOpen(c), leaf, x);
  }

  /** An enum renders as its annotations, its opening line, its body one
      level deeper and `}` back at the outer level. */
  lemma EnumRender<X>(s: FormatterState, c: EnumDecl, implementsTexts: seq<string>, leaf: Statements.Leaf<Variable, X>, x: X)
    requires WritesText(leaf, Lit, x)
    requires WrittenAs(leaf, ClassVariables(c.implements), implementsTexts, x)
    requires forall e :: e in AnnotationTrees(c.annotations) ==> Statements.Defined(leaf, Document.VarsOf(e), x) && Statements.KeepsIndent(leaf, Document.VarsOf(e), x)
    requires forall e :: e in EnumBody(c) ==> Statements.Defined(leaf, Document.VarsOf(e), x) && Statements.KeepsIndent(leaf, Document.VarsOf(e), x)
    ensures Statements.Defined(leaf, Document.VarsOf(Document.Inner(AnnotationTrees(c.annotations))), x)
    ensures Statements.Defined(leaf, Document.VarsOf(Document.Inner(Interleave(EnumBody(c), Document.Spacing))), x)
    ensures Statements.Defined(leaf, Document.VarsOf(EnumTree(c)), x)
    ensures Exec(s, Document.Trace(EnumTree(c), leaf, x))
         == Document.Closed(Exec(Document.Opened(Exec(s, Document.Trace(Document.Inner(AnnotationTrees(c.annotations)), leaf, x)),
                                                 EnumHeader(c, implementsTexts)),
                                 Document.Trace(Document.Inner(Interleave(EnumBody(c), Document.Spacing)), leaf, x)),
                            s.indent, "}")
  {
    EnumOpenText(c, implementsTexts, leaf, x);
    ContainerRender(s, c.annotations, EnumOpen(c), EnumBody(c), leaf, x);
  }

  /** Each constant on a line of its own at level `level`. */
  function PaddedLines(vs: seq<string>, level: nat): (r: seq<string>)
    ensures |r| == |vs| && forall i :: 0 <= i < |vs| ==> r[i] == Padding(level) + vs[i]
  {
    seq(|vs|, i requires 0 <= i < |vs| => Padding(level) + vs[i])
  }

  /** The separator writes `,` at the end of the current line. */
  lemma SeparatorEffect<X>(s: FormatterState, leaf: Statements.Leaf<Variable, X>, x: X)
    requires WritesText(leaf, Lit, x)
    requires !s.lineEmpty
    ensures Statements.Defined(leaf, Document.VarsOf(ValueSeparator()), x)
         && Exec(s, Document.Trace(ValueSeparator(), leaf, x)) == s.(out := s.out + ",")
  {
    var comma := Single(Lit(","));
    TextStatement([","], leaf, Lit, x);
    assert TextParts([","], Lit) == comma.parts;
    FlattenSmall(",", "", "");
    Document.StatementEffect(s, comma, leaf, x);
    Document.InnerTraceOne(Document.Concat(comma), leaf, x);
  }

  /** A separator that writes `,` at the end of whatever line is open. */
  ghost predicate WritesComma<X>(sep: Tree, leaf: Statements.Leaf<Variable, X>, x: X)
  {
    Statements.Defined(leaf, Document.VarsOf(sep), x)
    && Statements.Writes(leaf, Document.VarsOf(sep), x)
    && forall t: FormatterState {:trigger Exec(t, Document.Trace(sep, leaf, x))} ::
         !t.lineEmpty ==> Exec(t, Document.Trace(sep, leaf, x)) == t.(out := t.out + ",")
  }

  lemma SeparatorWrites<X>(leaf: Statements.Leaf<Variable, X>, x: X)
    requires WritesText(leaf, Lit, x)
    ensures Statements.Defined(leaf, Document.VarsOf(ValueSeparator()), x)
         && Statements.Writes(leaf, Document.VarsOf(ValueSeparator()), x)
  {
    var comma := Single(Lit(","));
    TextStatement([","], leaf, Lit, x);
    assert TextParts([","], Lit) == comma.parts;
    InnerWrites([Document.Concat(comma)], leaf, x);
  }

  lemma CommaSeparator<X>(leaf: Statements.Leaf<Variable, X>, x: X)
    requires WritesText(leaf, Lit, x)
    ensures WritesComma(ValueSeparator(), leaf, x)
  {
    SeparatorWrites(leaf, x);
    forall t: FormatterState | !t.lineEmpty
      ensures Exec(t, Document.Trace(ValueSeparator(), leaf, x)) == t.(out := t.out + ",")
    {
      SeparatorEffect(t, leaf, x);
    }
  }

  /** After a constant, the separator and the next constant write `,`, a
      line break, the padding and the constant. */
  lemma ValueStep<X>(t: FormatterState, v: string, sep: Tree, leaf: Statements.Leaf<Variable, X>, x: X)
    requires WritesComma(sep, leaf, x)
    requires !t.lineEmpty && v != ""
    ensures Exec(t, Document.InnerTrace([sep, Document.Literal(v)], leaf, x))
         == FormatterState(t.indent, false, t.out + ",\n" + Padding(t.indent) + v)
  {
    var lv: Tree := Document.Literal(v);
    var u := t.(out := t.out + ",");
    assert Exec(t, Document.Trace(sep, leaf, x)) == u;
    Document.LiteralEffect(u, v, leaf, x);
    Document.ExecInner(u, lv, [], leaf, x);
    assert [lv] + [] == [lv];
    Document.ExecInner(t, sep, [lv], leaf, x);
    assert [sep] + [lv] == [sep, lv];
  }

  /** Every item of the joined constants is defined. */
  lemma ValuesDefined<X>(vs: seq<string>, sep: Tree, leaf: Statements.Leaf<Variable, X>, x: X)
    requires WritesComma(sep, leaf, x)
    ensures forall i :: 0 <= i < |Interleave(Document.Literals(vs), sep)|
                        ==> Statements.Defined(leaf, Document.VarsOf(Interleave(Document.Literals(vs), sep)[i]), x)
  {
    var ls: seq<Tree> := Document.Literals(vs);
    var js := Interleave(ls, sep);
    InterleaveMembers(ls, sep);
    forall i | 0 <= i < |js| ensures Statements.Defined(leaf, Document.VarsOf(js[i]), x) {
      assert js[i] in js;
    }
  }

  /** The trace of one more constant: the others' trace, then the
      separator and the constant. */
  lemma ValuesTraceSnoc<X>(s: FormatterState, init: seq<string>, v: string, sep: Tree, leaf: Statements.Leaf<Variable, X>, x: X)
    requires WritesComma(sep, leaf, x)
    ensures forall i :: 0 <= i < |Interleave(Document.Literals(init), sep)|
                        ==> Statements.Defined(leaf, Document.VarsOf(Interleave(Document.Literals(init), sep)[i]), x)
    ensures forall i :: 0 <= i < |Interleave(Document.Literals(init + [v]), sep)|
                        ==> Statements.Defined(leaf, Document.VarsOf(Interleave(Document.Literals(init + [v]), sep)[i]), x)
    ensures init != [] ==>
              Exec(s, Document.InnerTrace(Interleave(Document.Literals(init + [v]), sep), leaf, x))
              == Exec(Exec(s, Document.InnerTrace(Interleave(Document.Literals(init), sep), leaf, x)),
                      Document.InnerTrace([sep, Document.Literal(v)], leaf, x))
  {
    ValuesDefined(init, sep, leaf, x);
    ValuesDefined(init + [v], sep, leaf, x);
    if init != [] {
      var lv: Tree := Document.Literal(v);
      var li: seq<Tree> := Document.Literals(init);
      var front := Interleave(li, sep);
      assert Document.Literals(init + [v]) == li + [lv];
      InterleaveSnoc(li, lv, sep);
      assert Interleave(Document.Literals(init + [v]), sep) == front + [sep, lv];
      Document.InnerTraceAppend(front, [sep, lv], leaf, x);
      ExecAppend(s, Document.InnerTrace(front, leaf, x), Document.InnerTrace([sep, lv], leaf, x));
    }
  }

  /** The joined lines of one more constant. */
  lemma PaddedJoinSnoc(init: seq<string>, v: string, level: nat)
    ensures JoinStrings(PaddedLines(init + [v], level), ",\n")
         == if init == [] then Padding(level) + v
            else JoinStrings(PaddedLines(init, level), ",\n") + ",\n" + (Padding(level) + v)
  {
    var lines := PaddedLines(init, level);
    assert PaddedLines(init + [v], level) == lines + [Padding(level) + v];
    if init == [] {
      JoinStringsSmall([Padding(level) + v], ",\n");
    } else {
      JoinStringsSnoc(lines, Padding(level) + v, ",\n");
    }
  }

  /** One more constant after the others: the separator, a line break and
      the padded constant follow what the others wrote. */
  lemma ValuesSnoc<X>(s: FormatterState, init: seq<string>, v: string, sep: Tree, leaf: Statements.Leaf<Variable, X>, x: X)
    requires WritesComma(sep, leaf, x)
    requires init != [] && v != ""
    requires forall i :: 0 <= i < |Interleave(Document.Literals(init), sep)|
                        ==> Statements.Defined(leaf, Document.VarsOf(Interleave(Document.Literals(init), sep)[i]), x)
    requires Exec(s, Document.InnerTrace(Interleave(Document.Literals(init), sep), leaf, x))
          == FormatterState(s.indent, false, s.out + JoinStrings(PaddedLines(init, s.indent), ",\n"))
    ensures forall i :: 0 <= i < |Interleave(Document.Literals(init + [v]), sep)|
                        ==> Statements.Defined(leaf, Document.VarsOf(Interleave(Document.Literals(init + [v]), sep)[i]), x)
    ensures Exec(s, Document.InnerTrace(Interleave(Document.Literals(init + [v]), sep), leaf, x))
         == FormatterState(s.indent, false, s.out + JoinStrings(PaddedLines(init + [v], s.indent), ",\n"))
  {
    ValuesDefined(init + [v], sep, leaf, x);
    var lv: Tree := Document.Literal(v);
    var front := Interleave(Document.Literals(init), sep);
    var joined := Interleave(Document.Literals(init + [v]), sep);
    var t := Exec(s, Document.InnerTrace(front, leaf, x));
    ValuesTraceSnoc(s, init, v, sep, leaf, x);
    ValueStep(t, v, sep, leaf, x);
    var lines := PaddedLines(init, s.indent);
    PaddedJoinSnoc(init, v, s.indent);
    ConcatTail(s.out, JoinStrings(lines, ",\n"), ",\n", Padding(s.indent), v);
  }

  /** Associativity of string concatenation, for five pieces. */
  lemma ConcatTail(a: string, b: string, c: string, d: string, e: string)
    ensures (a + b) + c + d + e == a + (b + c + (d + e))
  {
  }

  /** Constants that are plain lines, from a fresh line: the lines joined
      by `,` and a line break. */
  lemma {:induction false} ValuesExec<X>(s: FormatterState, vs: seq<string>, sep: Tree, leaf: Statements.Leaf<Variable, X>, x: X)
    requires WritesComma(sep, leaf, x)
    requires vs != [] && s.lineEmpty
    requires forall i :: 0 <= i < |vs| ==> vs[i] != ""
    ensures forall i :: 0 <= i < |Interleave(Document.Literals(vs), sep)|
                        ==> Statements.Defined(leaf, Document.VarsOf(Interleave(Document.Literals(vs), sep)[i]), x)
    ensures Exec(s, Document.InnerTrace(Interleave(Document.Literals(vs), sep), leaf, x))
         == FormatterState(s.indent, false, s.out + JoinStrings(PaddedLines(vs, s.indent), ",\n"))
    decreases |vs|
  {
    ValuesDefined(vs, sep, leaf, x);
    var v := vs[|vs| - 1];
    if |vs| == 1 {
      assert vs == [v];
      OneValue(s, v, sep, leaf, x);
    } else {
      var init := vs[..|vs| - 1];
      ValuesExec(s, init, sep, leaf, x);
      ValuesSnoc(s, init, v, sep, leaf, x);
      assert init + [v] == vs;
    }
  }

  /** A single constant from a fresh line: the constant on its own line. */
  lemma OneValue<X>(s: FormatterState, v: string, sep: Tree, leaf: Statements.Leaf<Variable, X>, x: X)
    requires s.lineEmpty && v != ""
    ensures Exec(s, Document.InnerTrace(Interleave(Document.Literals([v]), sep), leaf, x))
         == FormatterState(s.indent, false, s.out + JoinStrings(PaddedLines([v], s.indent), ",\n"))
  {
    var lv: Tree := Document.Literal(v);
    assert Interleave(Document.Literals([v]), sep) == [lv];
    Document.InnerTraceOne(lv, leaf, x);
    Document.LiteralEffect(s, v, leaf, x);
    JoinStringsSmall(PaddedLines([v], s.indent), ",\n");
  }

  /** The constants joined by a separator, then `;`. */
  function SectionWith(vs: seq<string>, sep: Tree): Tree
  {
    Document.Inner([Document.Inner(Interleave(Document.Literals(vs), sep)), Document.Concat(Single(Lit(";")))])
  }

  /** Everything in the section is defined and only writes. */
  lemma SectionWrites<X>(vs: seq<string>, sep: Tree, leaf: Statements.Leaf<Variable, X>, x: X)
    requires WritesText(leaf, Lit, x)
    requires WritesComma(sep, leaf, x)
    ensures Statements.Defined(leaf, Document.VarsOf(Document.Inner(Interleave(Document.Literals(vs), sep))), x)
    ensures Statements.Defined(leaf, Document.VarsOf(SectionWith(vs, sep)), x)
    ensures Statements.Writes(leaf, Document.VarsOf(SectionWith(vs, sep)), x)
  {
    var js := Interleave(Document.Literals<Variable>(vs), sep);
    var semi := Single(Lit(";"));
    TextStatement([";"], leaf, Lit, x);
    assert TextParts([";"], Lit) == semi.parts;
    InterleaveMembers(Document.Literals<Variable>(vs), sep);
    InnerWrites(js, leaf, x);
    InnerWrites([Document.Inner(js), Document.Concat(semi)], leaf, x);
  }

  /** The section from a fresh line, for any separator that writes `,`. */
  lemma SectionExec<X>(s: FormatterState, vs: seq<string>, sep: Tree, leaf: Statements.Leaf<Variable, X>, x: X)
    requires WritesText(leaf, Lit, x)
    requires WritesComma(sep, leaf, x)
    requires s.lineEmpty
    requires forall i :: 0 <= i < |vs| ==> vs[i] != ""
    ensures Statements.Defined(leaf, Document.VarsOf(SectionWith(vs, sep)), x)
    ensures Exec(s, Document.Trace(SectionWith(vs, sep), leaf, x))
         == FormatterState(s.indent, false, s.out + (if vs == [] then Padding(s.indent) else JoinStrings(PaddedLines(vs, s.indent), ",\n")) + ";")
  {
    SectionWrites(vs, sep, leaf, x);
    var js := Interleave(Document.Literals<Variable>(vs), sep);
    var first: Tree := Document.Inner(js);
    var semi := Single(Lit(";"));
    var last: Tree := Document.Concat(semi);
    TextStatement([";"], leaf, Lit, x);
    assert TextParts([";"], Lit) == semi.parts;
    FlattenSmall(";", "", "");
    var t := Exec(s, Document.Trace(first, leaf, x));
    ValuesOrNothing(s, vs, sep, leaf, x);
    Document.StatementEffect(t, semi, leaf, x);
    Document.ExecInner(t, last, [], leaf, x);
    assert [last] + [] == [last];
    Document.ExecInner(s, first, [last], leaf, x);
    assert [first] + [last] == [first, last];
  }

  /** The constants from a fresh line, or nothing when there are none. */
  lemma ValuesOrNothing<X>(s: FormatterState, vs: seq<string>, sep: Tree, leaf: Statements.Leaf<Variable, X>, x: X)
    requires WritesComma(sep, leaf, x)
    requires s.lineEmpty
    requires forall i :: 0 <= i < |vs| ==> vs[i] != ""
    requires Statements.Defined(leaf, Document.VarsOf(Document.Inner(Interleave(Document.Literals(vs), sep))), x)
    ensures Exec(s, Document.Trace(Document.Inner(Interleave(Document.Literals(vs), sep)), leaf, x))
         == if vs == [] then s else FormatterState(s.indent, false, s.out + JoinStrings(PaddedLines(vs, s.indent), ",\n"))
  {
    if vs == [] {
      assert Interleave(Document.Literals<Variable>(vs), sep) == [];
    } else {
      ValuesExec(s, vs, sep, leaf, x);
    }
  }

  /** The constants section from a fresh line: the constants joined by `,`
      and a line break, then `;`; with no constants, `;` alone. */
  lemma ValuesSectionExec<X>(s: FormatterState, vs: seq<string>, leaf: Statements.Leaf<Variable, X>, x: X)
    requires WritesText(leaf, Lit, x)
    requires s.lineEmpty
    requires forall i :: 0 <= i < |vs| ==> vs[i] != ""
    ensures Statements.Defined(leaf, Document.VarsOf(ValuesSection(ElementLists.Elements(Document.Literals(vs)))), x)
    ensures Statements.Writes(leaf, Document.VarsOf(ValuesSection(ElementLists.Elements(Document.Literals(vs)))), x)
    ensures Exec(s, Document.Trace(ValuesSection(ElementLists.Elements(Document.Literals(vs))), leaf, x))
         == FormatterState(s.indent, false, s.out + (if vs == [] then Padding(s.indent) else JoinStrings(PaddedLines(vs, s.indent), ",\n")) + ";")
  {
    CommaSeparator(leaf, x);
    assert ValuesSection(ElementLists.Elements(Document.Literals(vs))) == SectionWith(vs, ValueSeparator());
    SectionWrites(vs, ValueSeparator(), leaf, x);
    SectionExec(s, vs, ValueSeparator(), leaf, x);
  }

  /** An enum of plain constants and nothing else: the opening line, the
      constants one level deeper joined by `,` and a line break and ended
      by `;`, and `}`. */
  lemma ConstantsEnumRender<X>(c: EnumDecl, vs: seq<string>, implementsTexts: seq<string>, leaf: Statements.Leaf<Variable, X>, x: X)
    requires c.annotations == [] && c.fields == [] && c.constructors == [] && c.elements.elements == []
    requires c.values == ElementLists.Elements(Document.Literals(vs))
    requires forall i :: 0 <= i < |vs| ==> vs[i] != ""
    requires WritesText(leaf, Lit, x)
    requires WrittenAs(leaf, ClassVariables(c.implements), implementsTexts, x)
    ensures Statements.Defined(leaf, Document.VarsOf(EnumTree(c)), x)
         && Document.Render(EnumTree(c), leaf, x)
            == EnumHeader(c, implementsTexts) + "\n" + (if vs == [] then "  " else JoinStrings(PaddedLines(vs, 1), ",\n")) + ";\n}"
  {
    var header := EnumHeader(c, implementsTexts);
    var lines := if vs == [] then "  " else JoinStrings(PaddedLines(vs, 1), ",\n");
    ConstantsBodyExec(c, vs, header, leaf, x);
    forall e | e in EnumBody(c) ensures Statements.KeepsIndent(leaf, Document.VarsOf(e), x) {
      Statements.WritesKeepIndent(leaf, Document.VarsOf(e), x);
    }
    EnumRender(Fresh, c, implementsTexts, leaf, x);
    NoAnnotationTrace(c.annotations, leaf, x);
    CloseAfterSemicolon(header + "\n" + lines);
  }

  /** The body of an enum of constants only, after a fresh opening line:
      the constants, each on a line at level 1, and `;`. */
  lemma ConstantsBodyExec<X>(c: EnumDecl, vs: seq<string>, header: string, leaf: Statements.Leaf<Variable, X>, x: X)
    requires c.fields == [] && c.constructors == [] && c.elements.elements == []
    requires c.values == ElementLists.Elements(Document.Literals(vs))
    requires forall i :: 0 <= i < |vs| ==> vs[i] != ""
    requires WritesText(leaf, Lit, x)
    ensures forall e :: e in EnumBody(c) ==> Statements.Defined(leaf, Document.VarsOf(e), x) && Statements.Writes(leaf, Document.VarsOf(e), x)
    ensures Statements.Defined(leaf, Document.VarsOf(Document.Inner(Interleave(EnumBody(c), Document.Spacing))), x)
    ensures Exec(Document.Opened(Fresh, header), Document.Trace(Document.Inner(Interleave(EnumBody(c), Document.Spacing)), leaf, x))
         == FormatterState(1, false, header + "\n" + (if vs == [] then "  " else JoinStrings(PaddedLines(vs, 1), ",\n")) + ";")
  {
    ValuesAfterHeader(header, vs, leaf, x);
    ConstantsOnlyBody(c);
    OnlySection(Document.Opened(Fresh, header), ValuesSection(c.values), leaf, x);
  }

  /** A body of one section renders as that section. */
  lemma OnlySection<X>(s: FormatterState, section: Tree, leaf: Statements.Leaf<Variable, X>, x: X)
    requires Statements.Defined(leaf, Document.VarsOf(section), x)
    ensures Statements.Defined(leaf, Document.VarsOf(Document.Inner(Interleave([section], Document.Spacing))), x)
    ensures Exec(s, Document.Trace(Document.Inner(Interleave([section], Document.Spacing)), leaf, x)) == Exec(s, Document.Trace(section, leaf, x))
  {
    assert Interleave([section], Document.Spacing) == [section];
    Document.InnerTraceOne(section, leaf, x);
  }

  lemma ValuesAfterHeader<X>(header: string, vs: seq<string>, leaf: Statements.Leaf<Variable, X>, x: X)
    requires forall i :: 0 <= i < |vs| ==> vs[i] != ""
    requires WritesText(leaf, Lit, x)
    ensures Statements.Defined(leaf, Document.VarsOf(ValuesSection(ElementLists.Elements(Document.Literals(vs)))), x)
    ensures Statements.Writes(leaf, Document.VarsOf(ValuesSection(ElementLists.Elements(Document.Literals(vs)))), x)
    ensures Exec(Document.Opened(Fresh, header), Document.Trace(ValuesSection(ElementLists.Elements(Document.Literals(vs))), leaf, x))
         == FormatterState(1, false, header + "\n" + (if vs == [] then "  " else JoinStrings(PaddedLines(vs, 1), ",\n")) + ";")
  {
    OpenedFresh(header);
    ValuesSectionExec(Document.Opened(Fresh, header), vs, leaf, x);
    assert Padding(1) == "  ";
  }


  /** Without annotations nothing is written before the opening line. */
  lemma NoAnnotationTrace<X>(anns: seq<Annotation>, leaf: Statements.Leaf<Variable, X>, x: X)
    requires anns == []
    ensures Statements.Defined(leaf, Document.VarsOf(Document.Inner(AnnotationTrees(anns))), x)
         && Document.Trace(Document.Inner(AnnotationTrees(anns)), leaf, x) == []
  {
    assert AnnotationTrees(anns) == [];
  }

  lemma OpenedFresh(header: string)
    ensures Document.Opened(Fresh, header) == FormatterState(1, true, header + "\n")
  {
    assert Padding(0) == "";
  }

  lemma ConstantsOnlyBody(c: EnumDecl)
    requires c.fields == [] && c.constructors == [] && c.elements.elements == []
    ensures EnumBody(c) == [ValuesSection(c.values)]
  {
  }

  lemma CloseAfterSemicolon(a: string)
    ensures a + ";" + "\n" + Padding(0) + "}" == a + ";\n}"
  {
    assert Padding(0) == "";
    assert ";" + "\n" + "}" == ";\n}";
  }

  /** A new public enum is `public enum `, its name and ` {`, a line
      `  ;` and `}`; for `Foo`, `public enum Foo {`, `  ;` and `}`. */
  lemma PublicEnumExample<X>(ms: JavaModifiers.Modifiers, name: string, leaf: Statements.Leaf<Variable, X>, x: X)
    requires ms == JavaModifiers.Insert(JavaModifiers.New(), JavaModifiers.Public)
    requires WritesText(leaf, Lit, x)
    ensures var c := EnumDecl(ms, name, [], ElementLists.New(), [], [], ElementLists.New(), []);
            Statements.Defined(leaf, Document.VarsOf(EnumTree(c)), x)
            && Document.Render(EnumTree(c), leaf, x) == "public enum " + name + " {\n  ;\n}"
  {
    var c := EnumDecl(ms, name, [], ElementLists.New(), [], [], ElementLists.New(), []);
    assert WrittenAs(leaf, ClassVariables(c.implements), [], x);
    assert c.values == ElementLists.Elements(Document.Literals([]));
    ConstantsEnumRender(c, [], [], leaf, x);
    PublicModsText();
    assert EnumHeader(c, []) == "public " + "enum " + name + "" + " {";
    EnumExampleWords(name);
  }

  lemma EnumExampleWords(name: string)
    ensures "public " + "enum " + name + "" + " {" + "\n" + "  " + ";\n}" == "public enum " + name + " {\n  ;\n}"
  {
    assert "public " + "enum " == "public enum ";
    var l := "public enum " + name;
    ConcatAssoc(l, " {", "\n");
    ConcatAssoc(l, " {" + "\n", "  ");
    ConcatAssoc(l, " {" + "\n" + "  ", ";\n}");
    assert " {" + "\n" + "  " + ";\n}" == " {\n  ;\n}";
  }


  /** Every interface of an enum is reported as an import. */
  lemma EnumHeaderImports(c: EnumDecl)
    ensures forall t :: t in c.implements ==> JavaImports.ClassImports(t) <= JavaImports.ElementImports(EnumTree(c))
  {
    var open := EnumOpen(c);
    OpenImports(c.annotations, open, [SpacedBody(EnumBody(c)), Document.Literal("}")]);
    ImplementsShape(c.implements);
    forall t | t in c.implements ensures JavaImports.ClassImports(t) <= JavaImports.ElementImports(EnumTree(c)) {
      var k :| 0 <= k < |c.implements| && c.implements[k] == t;
      assert ClassVariable(t) in ImplementsParts(c.implements);
      assert ClassVariable(t) in open.parts;
      JavaImports.VariableReports("", t, c.modifiers);
    }
  }

  // ------------------------------------------------------------- interface

  /** What an `InterfaceSpec` holds. */
  datatype InterfaceDecl = InterfaceDecl(modifiers: JavaModifiers.Modifiers, name: string, annotations: seq<Annotation>,
                                         elements: Body, superInterfaces: seq<JavaTypes.ClassType>)

  class InterfaceSpec {
    var modifiers: JavaModifiers.Modifiers
    var name: string
    var annotations: seq<Annotation>
    var elements: Body
    var superInterfaces: seq<JavaTypes.ClassType>

    function Value(): InterfaceDecl
      reads this
    {
      InterfaceDecl(modifiers, name, annotations, elements, superInterfaces)
    }

    /** `InterfaceSpec::new`: no annotations, elements or super-interfaces. */
    constructor (modifiers: JavaModifiers.Modifiers, name: string)
      ensures Value() == InterfaceDecl(modifiers, name, [], ElementLists.New(), [])
    {
      this.modifiers := modifiers;
      this.name := name;
      annotations := [];
      elements := ElementLists.New();
      superInterfaces := [];
    }

    /** `push_annotation`: a copy of the annotation at the end. */
    method PushAnnotation(a: Annotation)
      modifies this
      ensures Value() == old(Value()).(annotations := old(annotations) + [a])
    {
      annotations := annotations + [a];
    }

    /** `extends`: one more super-interface. */
    method Extends(t: JavaTypes.ClassType)
      modifies this
      ensures Value() == old(Value()).(superInterfaces := old(superInterfaces) + [t])
    {
      superInterfaces := superInterfaces + [t];
    }

    /** `ContainerSpec::push`. */
    method Push(e: Tree)
      modifies this
      ensures Value() == old(Value()).(elements := ElementLists.Push(old(elements), e))
    {
      elements := ElementLists.Push(elements, e);
    }
  }

  /** ` extends ` and one statement of the super-interfaces separated by a
      bare `,`, only when there are some. */
  function InterfaceExtendsParts(superInterfaces: seq<JavaTypes.ClassType>): seq<Variable>
  {
    if superInterfaces == [] then []
    else [Lit(" extends "), Statement(Statements.Statement(Interleave(ClassVariables(superInterfaces), Lit(","))))]
  }

  /** The opening line of an interface. */
  function InterfaceOpen(c: InterfaceDecl): Stmt
  {
    Statements.Statement(ModsParts(c.modifiers) + [Lit("interface "), Lit(c.name)] + InterfaceExtendsParts(c.superInterfaces) + [Lit(" {")])
  }

  /** `From<InterfaceSpec> for Element`: the elements are the body. */
  function InterfaceTree(c: InterfaceDecl): Tree
  {
    Document.Inner(Opening(c.annotations, InterfaceOpen(c)) + [SpacedBody(c.elements.elements), Document.Literal("}")])
  }

  method InterfaceOpenStatement(c: InterfaceDecl) returns (open: Stmt)
    ensures open == InterfaceOpen(c)
  {
    open := Statements.New();
    open := PushModifiers(open, c.modifiers);
    open := Statements.Push(open, Lit("interface "));
    open := Statements.Push(open, Lit(c.name));
    ghost var head := ModsParts(c.modifiers) + [Lit("interface "), Lit(c.name)];
    assert open.parts == head;
    if |c.superInterfaces| > 0 {
      var arguments := Statements.FromSeq(c.superInterfaces, ClassVariable);
      assert arguments.parts == ClassVariables(c.superInterfaces);
      var joined := Statements.Join(arguments, Lit(","));
      open := Statements.Push(open, Lit(" extends "));
      open := Statements.Push(open, Statement(joined));
    }
    assert open.parts == head + InterfaceExtendsParts(c.superInterfaces);
    open := Statements.Push(open, Lit(" {"));
  }

  method InterfaceIntoElement(c: InterfaceDecl) returns (e: Tree)
    ensures e == InterfaceTree(c)
  {
    var elements := AnnotationElements(c.annotations);
    var open := InterfaceOpenStatement(c);
    elements := ElementLists.Push(elements, Document.Push(open));
    e := CloseContainer(elements, c.elements);
  }

  /** The opening line of an interface, given what the statement of its
      super-interfaces is written as. */
  function InterfaceHeader(c: InterfaceDecl, extendsText: string): string
  {
    ModsText(c.modifiers) + "interface " + c.name + (if c.superInterfaces == [] then "" else " extends " + extendsText) + " {"
  }

  function InterfaceExtendsWords(superInterfaces: seq<JavaTypes.ClassType>, text: string): seq<string>
  {
    if superInterfaces == [] then [] else [" extends ", text]
  }

  /** The super-interfaces are one statement: each type at an even
      position, a bare `,` between neighbours. */
  lemma InterfaceExtendsShape(superInterfaces: seq<JavaTypes.ClassType>)
    ensures superInterfaces == [] <==> InterfaceExtendsParts(superInterfaces) == []
    ensures superInterfaces != [] ==> |InterfaceExtendsParts(superInterfaces)[1].statement.parts| == 2 * |superInterfaces| - 1
    ensures forall k :: 0 <= k < |superInterfaces| ==> InterfaceExtendsParts(superInterfaces)[1].statement.parts[2 * k] == ClassVariable(superInterfaces[k])
    ensures forall k :: 0 <= k < |superInterfaces| - 1 ==> InterfaceExtendsParts(superInterfaces)[1].statement.parts[2 * k + 1] == Lit(",")
  {
    forall k | 0 <= k < |superInterfaces| ensures InterfaceExtendsParts(superInterfaces)[1].statement.parts[2 * k] == ClassVariable(superInterfaces[k]) {
      InterleaveItem(ClassVariables(superInterfaces), Lit(","), k);
    }
    forall k | 0 <= k < |superInterfaces| - 1 ensures InterfaceExtendsParts(superInterfaces)[1].statement.parts[2 * k + 1] == Lit(",") {
      InterleaveSeparator(ClassVariables(superInterfaces), Lit(","), k);
    }
  }

  lemma InterfaceOpenText<X>(c: InterfaceDecl, extendsText: string, leaf: Statements.Leaf<Variable, X>, x: X)
    requires WritesText(leaf, Lit, x)
    requires c.superInterfaces != [] ==> WrittenAs(leaf, [InterfaceExtendsParts(c.superInterfaces)[1]], [extendsText], x)
    ensures Statements.Defined(leaf, Statements.Vars(InterfaceOpen(c)), x)
         && Statements.Writes(leaf, Statements.Vars(InterfaceOpen(c)), x)
         && Document.StatementText(InterfaceOpen(c), leaf, x) == InterfaceHeader(c, extendsText)
  {
    var present := c.superInterfaces != [];
    var rest := if present then [InterfaceExtendsParts(c.superInterfaces)[1]] else [];
    KeywordThen(" extends ", rest, [extendsText], present, leaf, x);
    assert InterfaceExtendsParts(c.superInterfaces) == if present then [Lit(" extends ")] + rest else [];
    HeaderText(c.modifiers, "interface ", c.name, InterfaceExtendsParts(c.superInterfaces),
               InterfaceExtendsWords(c.superInterfaces, extendsText), InterfaceOpen(c), leaf, x);
  }

  /** An interface renders as its annotations, its opening line, its
      elements one level deeper separated by empty lines, and `}`. */
  lemma InterfaceRender<X>(s: FormatterState, c: InterfaceDecl, extendsText: string, leaf: Statements.Leaf<Variable, X>, x: X)
    requires WritesText(leaf, Lit, x)
    requires c.superInterfaces != [] ==> WrittenAs(leaf, [InterfaceExtendsParts(c.superInterfaces)[1]], [extendsText], x)
    requires forall e :: e in AnnotationTrees(c.annotations) ==> Statements.Defined(leaf, Document.VarsOf(e), x) && Statements.KeepsIndent(leaf, Document.VarsOf(e), x)
    requires forall e :: e in c.elements.elements ==> Statements.Defined(leaf, Document.VarsOf(e), x) && Statements.KeepsIndent(leaf, Document.VarsOf(e), x)
    ensures Statements.Defined(leaf, Document.VarsOf(Document.Inner(AnnotationTrees(c.annotations))), x)
    ensures Statements.Defined(leaf, Document.VarsOf(Document.Inner(Interleave(c.elements.elements, Document.Spacing))), x)
    ensures Statements.Defined(leaf, Document.VarsOf(InterfaceTree(c)), x)
    ensures Exec(s, Document.Trace(InterfaceTree(c), leaf, x))
         == Document.Closed(Exec(Document.Opened(Exec(s, Document.Trace(Document.Inner(AnnotationTrees(c.annotations)), leaf, x)),
                                                 InterfaceHeader(c, extendsText)),
                                 Document.Trace(Document.Inner(Interleave(c.elements.elements, Document.Spacing)), leaf, x)),
                            s.indent, "}")
  {
    InterfaceOpenText(c, extendsText, leaf, x);
    ContainerRender(s, c.annotations, InterfaceOpen(c), c.elements.elements, leaf, x);
  }

  /** An interface without annotations, super-interfaces or elements is
      its opening line and `}` on the next line. */
  lemma EmptyInterfaceRender<X>(c: InterfaceDecl, leaf: Statements.Leaf<Variable, X>, x: X)
    requires c.annotations == [] && c.superInterfaces == [] && c.elements.elements == []
    requires WritesText(leaf, Lit, x)
    ensures Statements.Defined(leaf, Document.VarsOf(InterfaceTree(c)), x)
         && Document.Render(InterfaceTree(c), leaf, x) == InterfaceHeader(c, "") + "\n}"
  {
    InterfaceRender(Fresh, c, "", leaf, x);
    NoAnnotationTrace(c.annotations, leaf, x);
    assert Document.Trace(Document.Inner(Interleave(c.elements.elements, Document.Spacing)), leaf, x) == [];
    EmptyBlockText(InterfaceHeader(c, ""));
  }

  /** The `public interface` header and the closing brace, as one string. */
  lemma PublicInterfaceWords(name: string)
    ensures "public " + "interface " + name + "" + " {" + "\n}" == "public interface " + name + " {\n}"
  {
    assert "public " + "interface " == "public interface ";
    assert " {" + "\n}" == " {\n}";
  }

  /** A new public interface is `public interface `, its name and ` {`,
      then `}`; for `Foo`, `public interface Foo {` and `}`. */
  lemma PublicInterfaceExample<X>(ms: JavaModifiers.Modifiers, name: string, leaf: Statements.Leaf<Variable, X>, x: X)
    requires ms == JavaModifiers.Insert(JavaModifiers.New(), JavaModifiers.Public)
    requires WritesText(leaf, Lit, x)
    ensures var c := InterfaceDecl(ms, name, [], ElementLists.New(), []);
            Statements.Defined(leaf, Document.VarsOf(InterfaceTree(c)), x)
            && Document.Render(InterfaceTree(c), leaf, x) == "public interface " + name + " {\n}"
  {
    var c := InterfaceDecl(ms, name, [], ElementLists.New(), []);
    EmptyInterfaceRender(c, leaf, x);
    var h := InterfaceHeader(c, "");
    assert h == "public " + "interface " + name + "" + " {" by {
      PublicModsText();
    }
    PublicInterfaceWords(name);
  }

  /** Every super-interface is reported as an import. */
  lemma InterfaceHeaderImports(c: InterfaceDecl)
    ensures forall t :: t in c.superInterfaces ==> JavaImports.ClassImports(t) <= JavaImports.ElementImports(InterfaceTree(c))
  {
    var open := InterfaceOpen(c);
    OpenImports(c.annotations, open, [SpacedBody(c.elements.elements), Document.Literal("}")]);
    if c.superInterfaces != [] {
      var st := InterfaceExtendsParts(c.superInterfaces)[1];
      assert st in open.parts;
      ExtendsReports(c.superInterfaces);
    }
  }

  /** The statement of super-interfaces reports each of them. */
  lemma ExtendsReports(superInterfaces: seq<JavaTypes.ClassType>)
    requires superInterfaces != []
    ensures forall t :: t in superInterfaces
              ==> JavaImports.ClassImports(t) <= JavaImports.VariableImports(InterfaceExtendsParts(superInterfaces)[1])
  {
    var st := InterfaceExtendsParts(superInterfaces)[1];
    InterfaceExtendsShape(superInterfaces);
    JavaImports.EvenPartsReport(st.statement.parts, superInterfaces);
    forall t | t in superInterfaces ensures JavaImports.ClassImports(t) <= JavaImports.VariableImports(st) {
      var k :| 0 <= k < |superInterfaces| && superInterfaces[k] == t;
    }
  }
}
