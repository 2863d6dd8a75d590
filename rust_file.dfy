/** The Rust file builder: one `use` line per distinct (module, alias) pair
    the body refers to, then the body.

    The names a file refers to are collected by the adapter's import
    visitor, which is not part of this model: it is the parameter `visit`.
    The names themselves are dropped; only their module and alias make a
    `use` line, so two names from the same module under the same alias
    share one line. */
module RustFile {
  import opened Wrappers
  import opened Orders
  import opened Joins
  import opened Formatter
  import Statements
  import opened Document
  import ElementLists
  import opened Names
  import opened RustSpecs
  import opened Blocks

  /** What one `use` line imports: a module and an optional alias. */
  type Use = (string, Option<string>)

  /** The distinct (module, alias) pairs of the referenced names. */
  function UsesOf(refs: set<ImportedName>): set<Use>
  {
    set i | i in refs :: (i.moduleName, i.alias)
  }

  /** The derived order on the pairs: by module, then `None` before any alias. */
  predicate UseLess(a: Use, b: Use)
  {
    StrLess(a.0, b.0) || (a.0 == b.0 && OptionLess(a.1, b.1))
  }

  lemma UseLessIsStrictTotal()
    ensures StrictTotal(UseLess)
  {
    OptionLessIsStrictTotal();
    forall a: Use ensures !UseLess(a, a) {
      StrIrreflexive(a.0);
    }
    forall a: Use, b: Use, c: Use | UseLess(a, b) && UseLess(b, c) ensures UseLess(a, c) {
      if StrLess(a.0, b.0) && StrLess(b.0, c.0) { StrTransitive(a.0, b.0, c.0); }
    }
    forall a: Use, b: Use | a != b ensures UseLess(a, b) || UseLess(b, a) {
      if a.0 != b.0 { StrConnected(a.0, b.0); }
    }
  }

  /** The iteration order of the ordered set of pairs. */
  ghost function UseOrder(s: set<Use>): (r: seq<Use>)
    ensures SortedBy(r, UseLess) && forall x :: x in r <==> x in s
  {
    UseLessIsStrictTotal();
    SortedSeq(s, UseLess)
  }

  /** The words of `use module;` or `use module as alias;`. */
  function UseWords(u: Use): seq<string>
  {
    ["use ", u.0] + (if u.1.Some? then [" as ", u.1.value] else []) + [";"]
  }

  function UseStatement<V>(u: Use, text: string -> V): Statements.Statement<V>
  {
    Statements.Statement(TextParts(UseWords(u), text))
  }

  /** The text of a `use` line. */
  lemma UseText<V>(u: Use, leaf: Statements.Leaf<V, ()>, text: string -> V)
    requires WritesText(leaf, text, ())
    ensures Statements.Defined(leaf, Statements.Vars(UseStatement(u, text)), ())
         && Statements.Writes(leaf, Statements.Vars(UseStatement(u, text)), ())
    ensures StatementText(UseStatement(u, text), leaf, ())
         == "use " + u.0 + (if u.1.Some? then " as " + u.1.value else "") + ";"
  {
    TextStatement(UseWords(u), leaf, text, ());
    if u.1.Some? {
      var v := u.1.value;
      assert UseWords(u) == ["use ", u.0] + [" as ", v, ";"];
      FlattenAppend(["use ", u.0], [" as ", v, ";"]);
      FlattenSmall("use ", u.0, "");
      FlattenSmall(" as ", v, ";");
      ConcatAssoc("use " + u.0, " as " + v, ";");
    } else {
      assert UseWords(u) == ["use ", u.0, ";"];
      FlattenSmall("use ", u.0, ";");
      assert u.0 + "" == u.0;
    }
  }


  /** One `use` line per pair, in the given order. */
  function UseLines<V>(us: seq<Use>, text: string -> V): (r: seq<Element<V>>)
    ensures |r| == |us|
  {
    seq(|us|, k requires 0 <= k < |us| => Push(UseStatement(us[k], text)))
  }

  /** The lines of one more pair of `us`: the earlier lines and its own. */
  lemma UseLinesPrefix<V>(us: seq<Use>, k: nat, text: string -> V)
    requires k < |us|
    ensures UseLines(us[..k + 1], text) == UseLines(us[..k], text) + [Push(UseStatement(us[k], text))]
  {
    var a, b := UseLines(us[..k + 1], text), UseLines(us[..k], text) + [Push(UseStatement(us[k], text))];
    forall j | 0 <= j < |a| ensures a[j] == b[j] {
      assert us[..k + 1][j] == if j < k then us[..k][j] else us[k];
    }
  }


  /** What `FileSpec::imports` returns for the names `refs`. */
  ghost function ImportBlock<V>(refs: set<ImportedName>, text: string -> V): Option<ElementLists.Elements<V>>
  {
    if UsesOf(refs) == {} then None else Some(ElementLists.Elements(UseLines(UseOrder(UsesOf(refs)), text)))
  }

  /** There is an import block exactly when a name is referred to. */
  lemma ImportBlockPresent<V>(refs: set<ImportedName>, text: string -> V)
    ensures ImportBlock(refs, text).None? <==> refs == {}
  {
    if refs != {} {
      var i :| i in refs;
      assert (i.moduleName, i.alias) in UsesOf(refs);
    }
  }

  /** Every referred-to name has the `use` line of its module and alias,
      every line comes from a referred-to name, and the lines are in
      ascending pair order with no line twice. */
  lemma ImportBlockCovers<V>(refs: set<ImportedName>, text: string -> V)
    requires refs != {}
    ensures ImportBlock(refs, text).Some?
    ensures var us := UseOrder(UsesOf(refs));
            && ImportBlock(refs, text).value.elements == UseLines(us, text)
            && SortedBy(us, UseLess)
            && (forall i :: i in refs ==> (i.moduleName, i.alias) in us)
            && (forall k :: 0 <= k < |us| ==> exists i :: i in refs && us[k] == (i.moduleName, i.alias))
  {
    ImportBlockPresent(refs, text);
    var us := UseOrder(UsesOf(refs));
    forall i | i in refs ensures (i.moduleName, i.alias) in us {
      assert (i.moduleName, i.alias) in UsesOf(refs);
    }
    forall k | 0 <= k < |us| ensures exists i :: i in refs && us[k] == (i.moduleName, i.alias) {
      assert us[k] in UsesOf(refs);
    }
  }

  /** A further name from a module and alias already referred to adds no
      line: names are dropped. */
  lemma NamesDropped<V>(refs: set<ImportedName>, i: ImportedName, j: ImportedName, text: string -> V)
    requires i in refs && j.moduleName == i.moduleName && j.alias == i.alias
    ensures ImportBlock(refs + {j}, text) == ImportBlock(refs, text)
  {
    assert UsesOf(refs + {j}) == UsesOf(refs) by {
      assert (i.moduleName, i.alias) in UsesOf(refs);
    }
  }

  /** The `use` statement of one pair, push by push. */
  method UseLine<V>(u: Use, text: string -> V) returns (st: Statements.Statement<V>)
    ensures st == UseStatement(u, text)
  {
    st := Statements.New();
    st := Statements.Push(st, text("use "));
    st := Statements.Push(st, text(u.0));
    if u.1.Some? {
      st := Statements.Push(st, text(" as "));
      st := Statements.Push(st, text(u.1.value));
    }
    st := Statements.Push(st, text(";"));
  }

  /** `FileSpec::imports` once the visitor has reported `refs`: the pairs
      are collected into an ordered set and visited in order. */
  method Imports<V>(refs: set<ImportedName>, text: string -> V) returns (r: Option<ElementLists.Elements<V>>)
    ensures r == ImportBlock(refs, text)
  {
    var modules := UsesOf(refs);
    if modules == {} {
      return None;
    }
    UseLessIsStrictTotal();
    var us := SortedList(modules, UseLess);
    var elements := ElementLists.New();
    for k := 0 to |us|
      invariant elements.elements == UseLines(us[..k], text)
    {
      var st := UseLine(us[k], text);
      UseLinesPrefix(us, k, text);
      elements := ElementLists.Push(elements, Push(st));
    }
    assert us[..|us|] == us;
    r := Some(elements);
  }

  /** The tree `FileSpec::format` renders. */
  ghost function FileTree<V>(elements: ElementLists.Elements<V>, visit: ElementLists.Elements<V> -> set<ImportedName>,
                             text: string -> V): Element<V>
  {
    var imports := ImportBlock(visit(elements), text);
    var parts := (if imports.Some? then [ElementLists.IntoElement(imports.value)] else [])
      + [Inner(Interleave(elements.elements, Spacing))];
    Inner(Interleave(parts, Spacing))
  }

  /** The file tree is renderable when the body is and the leaf writes text. */
  lemma FileDefined<V>(elements: ElementLists.Elements<V>, visit: ElementLists.Elements<V> -> set<ImportedName>,
                       leaf: Statements.Leaf<V, ()>, text: string -> V)
    requires WritesText(leaf, text, ())
    requires forall c :: c in elements.elements ==> Statements.Defined(leaf, VarsOf(c), ())
    ensures Statements.Defined(leaf, VarsOf(FileTree(elements, visit, text)), ())
  {
    var imports := ImportBlock(visit(elements), text);
    var body: Element<V> := Inner(Interleave(elements.elements, Spacing));
    InterleaveMembers(elements.elements, Spacing);
    InnerDefined(Interleave(elements.elements, Spacing), leaf, ());
    var parts := (if imports.Some? then [ElementLists.IntoElement(imports.value)] else []) + [body];
    if imports.Some? {
      var lines := imports.value.elements;
      forall c | c in lines ensures Statements.Defined(leaf, VarsOf(c), ()) {
        var k :| 0 <= k < |lines| && lines[k] == c;
        var us := UseOrder(UsesOf(visit(elements)));
        assert c == Push(UseStatement(us[k], text));
        UseText(us[k], leaf, text);
      }
      InnerDefined(lines, leaf, ());
    }
    assert forall c :: c in parts ==> c == body || (imports.Some? && c == ElementLists.IntoElement(imports.value));
    InterleaveMembers(parts, Spacing);
    InnerDefined(Interleave(parts, Spacing), leaf, ());
  }

  /** What `FileSpec::format` writes: the rendered tree and one newline. */
  ghost function FileText<V>(elements: ElementLists.Elements<V>, visit: ElementLists.Elements<V> -> set<ImportedName>,
                             leaf: Statements.Leaf<V, ()>, text: string -> V): string
    requires WritesText(leaf, text, ())
    requires forall c :: c in elements.elements ==> Statements.Defined(leaf, VarsOf(c), ())
  {
    FileDefined(elements, visit, leaf, text);
    Render(FileTree(elements, visit, text), leaf, ()) + "\n"
  }

  /** Without referred-to names the file is the body alone and a newline:
      no import block and no blank line before the body. */
  lemma NoImportsText<V>(elements: ElementLists.Elements<V>, visit: ElementLists.Elements<V> -> set<ImportedName>,
                         leaf: Statements.Leaf<V, ()>, text: string -> V)
    requires WritesText(leaf, text, ())
    requires forall c :: c in elements.elements ==> Statements.Defined(leaf, VarsOf(c), ())
    requires visit(elements) == {}
    ensures Statements.Defined(leaf, VarsOf(Inner(Interleave(elements.elements, Spacing))), ())
    ensures FileText(elements, visit, leaf, text) == Render(Inner(Interleave(elements.elements, Spacing)), leaf, ()) + "\n"
  {
    var body: Element<V> := Inner(Interleave(elements.elements, Spacing));
    InterleaveMembers(elements.elements, Spacing);
    InnerDefined(Interleave(elements.elements, Spacing), leaf, ());
    ImportBlockPresent(visit(elements), text);
    assert Interleave([body], Spacing) == [body];
    FileDefined(elements, visit, leaf, text);
    assert FileTree(elements, visit, text) == Inner([body]);
    InnerTraceOne(body, leaf, ());
  }

  /** With referred-to names the file is the import block, `Spacing` and
      the body. */
  lemma ImportsFirst<V>(elements: ElementLists.Elements<V>, visit: ElementLists.Elements<V> -> set<ImportedName>, text: string -> V)
    requires visit(elements) != {}
    ensures ImportBlock(visit(elements), text).Some?
    ensures FileTree(elements, visit, text)
         == Inner([ElementLists.IntoElement(ImportBlock(visit(elements), text).value), Spacing, Inner(Interleave(elements.elements, Spacing))])
  {
    ImportBlockPresent(visit(elements), text);
    var block := ElementLists.IntoElement(ImportBlock(visit(elements), text).value);
    var body: Element<V> := Inner(Interleave(elements.elements, Spacing));
    InterleaveSnoc([block], body, Spacing);
    assert Interleave([block], Spacing) == [block];
    assert [block] + [Spacing, body] == [block, Spacing, body];
  }

  class FileSpec<V> {
    var elements: ElementLists.Elements<V>

    /** `FileSpec::new`: an empty file. */
    constructor ()
      ensures elements == ElementLists.New()
    {
      elements := ElementLists.New();
    }

    /** `push`: one more top-level element. */
    method Push(element: Element<V>)
      modifies this
      ensures elements == ElementLists.Push(old(elements), element)
    {
      elements := ElementLists.Push(elements, element);
    }

    /** `format`, returning what it writes to the sink. */
    method Format(visit: ElementLists.Elements<V> -> set<ImportedName>, leaf: Statements.Leaf<V, ()>, text: string -> V)
      returns (written: string)
      requires WritesText(leaf, text, ())
      requires forall c :: c in elements.elements ==> Statements.Defined(leaf, VarsOf(c), ())
      ensures written == FileText(elements, visit, leaf, text)
    {
      var imports := Imports(visit(elements), text);
      var parts := ElementLists.New();
      if imports.Some? {
        parts := ElementLists.Push(parts, ElementLists.IntoElement(imports.value));
      }
      var joined := ElementLists.Join(elements, Spacing);
      parts := ElementLists.Push(parts, ElementLists.IntoElement(joined));
      var all := ElementLists.Join(parts, Spacing);
      var tree := ElementLists.IntoElement(all);
      assert tree == FileTree(elements, visit, text);
      FileDefined(elements, visit, leaf, text);
      var fmt := new ElementFormatter();
      Document.Format(tree, fmt, leaf, ());
      written := fmt.out + "\n";
    }

    /** `to_string`. */
    method ToString(visit: ElementLists.Elements<V> -> set<ImportedName>, leaf: Statements.Leaf<V, ()>, text: string -> V)
      returns (s: string)
      requires WritesText(leaf, text, ())
      requires forall c :: c in elements.elements ==> Statements.Defined(leaf, VarsOf(c), ())
      ensures s == FileText(elements, visit, leaf, text)
    {
      s := Format(visit, leaf, text);
    }
  }
}
