/** The Rust builders: enums and structs.

    Both collect attributes and body elements and convert into the same
    shape: the attributes, the declaration line (`pub ` for a public item,
    the keyword, the name and ` {`), the body joined by `Spacing` and nested
    one level deeper when there is one, and a closing `}`.

    The Rust adapter's variable type is not part of this model.  The
    builders only ever turn text into a variable (`From<&str>` and
    `From<String>`), so they are generic in the variable type and take that
    conversion as `text`; the render lemmas ask for a leaf that writes such
    a variable's text unchanged (`Blocks.WritesText`) and, of the body,
    only that its variables keep the indentation level. */
module RustSpecs {
  import opened Formatter
  import opened Joins
  import Statements
  import opened Document
  import ElementLists
  import opened Blocks

  /** The words of the declaration line. */
  function HeaderWords(keyword: string, public: bool, name: string): seq<string>
  {
    (if public then ["pub "] else []) + [keyword, name, " {"]
  }

  /** The declaration line: `pub ` only for a public item. */
  lemma HeaderText(keyword: string, public: bool, name: string)
    ensures Flatten(HeaderWords(keyword, public, name)) == (if public then "pub " else "") + keyword + name + " {"
  {
    var tail := [keyword, name, " {"];
    assert Flatten([" {"]) == " {" + Flatten([]);
    assert tail[1..][1..] == [" {"];
    assert Flatten(tail) == keyword + (name + " {");
    if public {
      assert HeaderWords(keyword, public, name)[1..] == tail;
    } else {
      assert HeaderWords(keyword, public, name) == tail;
    }
  }

  /** The nested body of an item: its elements joined by `Spacing`. */
  function BodyOf<V>(elements: ElementLists.Elements<V>): Element<V>
  {
    Inner(Interleave(elements.elements, Spacing))
  }

  /** The declaration statement of an item. */
  function Declaration<V>(keyword: string, public: bool, name: string, text: string -> V): Statements.Statement<V>
  {
    Statements.Statement(TextParts(HeaderWords(keyword, public, name), text))
  }

  /** The tree an enum or a struct converts into. */
  function ItemTree<V>(keyword: string, public: bool, name: string, attributes: ElementLists.Elements<V>,
                       elements: ElementLists.Elements<V>, text: string -> V): Element<V>
  {
    Inner([Inner(attributes.elements), Push(Declaration(keyword, public, name, text))]
      + (if ElementLists.IsEmpty(elements) then [] else [Nested(BodyOf(elements))])
      + [Literal("}")])
  }

  /** The conversion both builders share, push by push. */
  method Item<V>(keyword: string, public: bool, name: string, attributes: ElementLists.Elements<V>,
                 elements: ElementLists.Elements<V>, text: string -> V) returns (e: Element<V>)
    ensures e == ItemTree(keyword, public, name, attributes, elements, text)
  {
    var out := ElementLists.New();
    out := ElementLists.Push(out, ElementLists.IntoElement(attributes));
    var decl := Statements.New();
    if public {
      decl := Statements.Push(decl, text("pub "));
    }
    decl := Statements.Push(decl, text(keyword));
    decl := Statements.Push(decl, text(name));
    decl := Statements.Push(decl, text(" {"));
    assert decl == Declaration(keyword, public, name, text);
    out := ElementLists.Push(out, Push(decl));
    if !ElementLists.IsEmpty(elements) {
      var joined := ElementLists.Join(elements, Spacing);
      out := ElementLists.PushNested(out, ElementLists.IntoElement(joined));
    }
    out := ElementLists.Push(out, Literal("}"));
    e := ElementLists.IntoElement(out);
  }

  /** An item renders as its attributes, then the declaration line, the
      body one level deeper, and `}` back at the level of the declaration.
      The empty body gives no line between the declaration and `}`. */
  lemma ItemRender<V>(s: FormatterState, keyword: string, public: bool, name: string,
                      attributes: ElementLists.Elements<V>, elements: ElementLists.Elements<V>,
                      leaf: Statements.Leaf<V, ()>, text: string -> V)
    requires WritesText(leaf, text, ())
    requires forall c :: c in attributes.elements ==> Statements.Defined(leaf, VarsOf(c), ())
    requires forall c :: c in elements.elements ==> Statements.Defined(leaf, VarsOf(c), ()) && Statements.KeepsIndent(leaf, VarsOf(c), ())
    ensures Statements.Defined(leaf, VarsOf(Inner(attributes.elements)), ())
    ensures Statements.Defined(leaf, VarsOf(BodyOf(elements)), ())
    ensures Statements.Defined(leaf, VarsOf(ItemTree(keyword, public, name, attributes, elements, text)), ())
    ensures
      var s1 := Exec(s, Document.Trace(Inner(attributes.elements), leaf, ()));
      Exec(s, Document.Trace(ItemTree(keyword, public, name, attributes, elements, text), leaf, ()))
        == Closed(Exec(Opened(s1, (if public then "pub " else "") + keyword + name + " {"),
                       Document.Trace(BodyOf(elements), leaf, ())), s1.indent, "}")
  {
    var decl := Declaration(keyword, public, name, text);
    var a: Element<V> := Inner(attributes.elements);
    var body := BodyOf(elements);
    InnerDefined(attributes.elements, leaf, ());
    SpacedKeeps(elements.elements, leaf, ());
    TextStatement(HeaderWords(keyword, public, name), leaf, text, ());
    HeaderText(keyword, public, name);
    var tree := ItemTree(keyword, public, name, attributes, elements, text);
    if ElementLists.IsEmpty(elements) {
      assert tree == Inner([a, Push(decl), Literal("}")]);
      HeadedEmpty(s, a, decl, leaf, ());
      assert Document.Trace(body, leaf, ()) == [];
    } else {
      assert tree == Inner([a, Push(decl), Nested(body), Literal("}")]);
      HeadedBlock(s, a, decl, body, leaf, ());
    }
  }

  /** An item without attributes or body is the declaration line and `}`. */
  lemma EmptyItemRender<V>(keyword: string, public: bool, name: string, leaf: Statements.Leaf<V, ()>, text: string -> V)
    requires WritesText(leaf, text, ())
    ensures Statements.Defined(leaf, VarsOf(ItemTree(keyword, public, name, ElementLists.New(), ElementLists.New(), text)), ())
         && Render(ItemTree(keyword, public, name, ElementLists.New(), ElementLists.New(), text), leaf, ())
         == (if public then "pub " else "") + keyword + name + " {\n}"
  {
    ItemRender(Fresh, keyword, public, name, ElementLists.New(), ElementLists.New(), leaf, text);
    var body: Element<V> := Inner([]);
    assert Document.Trace(body, leaf, ()) == [];
  }

  // -------------------------------------------------------------------- enum

  class EnumSpec<V> {
    var name: string
    var attributes: ElementLists.Elements<V>
    var elements: ElementLists.Elements<V>
    var public: bool

    /** `EnumSpec::new`: private, with no attributes and no body. */
    constructor (name: string)
      ensures this.name == name && !public
      ensures attributes == ElementLists.New() && elements == ElementLists.New()
    {
      this.name := name;
      attributes := ElementLists.New();
      elements := ElementLists.New();
      public := false;
    }

    /** `public`: sets the flag; nothing else changes. */
    method Public()
      modifies this
      ensures public
      ensures name == old(name) && attributes == old(attributes) && elements == old(elements)
    {
      public := true;
    }

    /** `push_attribute`: appends one attribute; nothing else changes. */
    method PushAttribute(attribute: Element<V>)
      modifies this
      ensures attributes == ElementLists.Push(old(attributes), attribute)
      ensures name == old(name) && elements == old(elements) && public == old(public)
    {
      attributes := ElementLists.Push(attributes, attribute);
    }

    /** `push`: appends one element to the body; nothing else changes. */
    method Push(element: Element<V>)
      modifies this
      ensures elements == ElementLists.Push(old(elements), element)
      ensures name == old(name) && attributes == old(attributes) && public == old(public)
    {
      elements := ElementLists.Push(elements, element);
    }
  }

  /** `From<EnumSpec> for Element`. */
  method EnumElement<V>(spec: EnumSpec<V>, text: string -> V) returns (e: Element<V>)
    ensures e == ItemTree("enum ", spec.public, spec.name, spec.attributes, spec.elements, text)
  {
    e := Item("enum ", spec.public, spec.name, spec.attributes, spec.elements, text);
  }

  // ------------------------------------------------------------------ struct

  class StructSpec<V> {
    var name: string
    var attributes: ElementLists.Elements<V>
    var elements: ElementLists.Elements<V>
    var public: bool

    /** `StructSpec::new`: private, with no attributes and no body. */
    constructor (name: string)
      ensures this.name == name && !public
      ensures attributes == ElementLists.New() && elements == ElementLists.New()
    {
      this.name := name;
      attributes := ElementLists.New();
      elements := ElementLists.New();
      public := false;
    }

    /** `public`: sets the flag; nothing else changes. */
    method Public()
      modifies this
      ensures public
      ensures name == old(name) && attributes == old(attributes) && elements == old(elements)
    {
      public := true;
    }

    /** `push_attribute`: appends one attribute; nothing else changes. */
    method PushAttribute(attribute: Element<V>)
      modifies this
      ensures attributes == ElementLists.Push(old(attributes), attribute)
      ensures name == old(name) && elements == old(elements) && public == old(public)
    {
      attributes := ElementLists.Push(attributes, attribute);
    }

    /** `push`: appends one element to the body; nothing else changes. */
    method Push(element: Element<V>)
      modifies this
      ensures elements == ElementLists.Push(old(elements), element)
      ensures name == old(name) && attributes == old(attributes) && public == old(public)
    {
      elements := ElementLists.Push(elements, element);
    }
  }

  /** `From<StructSpec> for Element`. */
  method StructElement<V>(spec: StructSpec<V>, text: string -> V) returns (e: Element<V>)
    ensures e == ItemTree("struct ", spec.public, spec.name, spec.attributes, spec.elements, text)
  {
    e := Item("struct ", spec.public, spec.name, spec.attributes, spec.elements, text);
  }
}
