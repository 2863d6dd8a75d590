/** The JavaScript file: its elements, and the import statements that a
    file puts before them.

    The names the elements import are collected in an ordered set.  Those
    without an alias are grouped by module in an ordered map, one
    `import {a, b} from "m.js";` per module; those with an alias become one
    `import * as alias from "m.js";` per (module, alias) pair, in the set
    order of the pairs.  Modules are written as paths: every `.` becomes `/`
    and `.js` is appended. */
module JsFile {
  import opened Wrappers
  import opened Orders
  import opened Joins
  import opened Formatter
  import Statements
  import opened Document
  import ElementLists
  import Scripts
  import opened Names
  import JsImports
  import Quoting
  import JsSpecs

  type Tree = Element<Scripts.Variable>
  type Stmt = Statements.Statement<Scripts.Variable>
  type Body = ElementLists.Elements<Scripts.Variable>

  const Js := Scripts.JavaScript

  // ------------------------------------------------------------ module paths

  /** `str::split(".")`: the pieces between the dots; the empty string is
      one empty piece, and a dot at either end gives an empty piece there. */
  function Split(s: string): (r: seq<string>)
    ensures |r| >= 1
    ensures forall i, j :: 0 <= i < |r| && 0 <= j < |r[i]| ==> r[i][j] != '.'
    decreases |s|
  {
    if s == [] then [""]
    else
      var init := Split(s[..|s| - 1]);
      var c := s[|s| - 1];
      if c == '.' then init + [""]
      else init[..|init| - 1] + [init[|init| - 1] + [c]]
  }

  /** Joining the pieces again with a one-character separator puts that
      character where each dot was and keeps everything else. */
  lemma {:induction false} SplitJoin(s: string, c: char)
    ensures |JoinStrings(Split(s), [c])| == |s|
    ensures forall i :: 0 <= i < |s| ==> JoinStrings(Split(s), [c])[i] == if s[i] == '.' then c else s[i]
    decreases |s|
  {
    if s == [] {
      JoinStringsSmall(Split(s), [c]);
    } else {
      var t, last := s[..|s| - 1], s[|s| - 1];
      assert s == t + [last];
      SplitJoin(t, c);
      SplitJoinSnoc(t, last, c);
      var j := JoinStrings(Split(t), [c]);
      forall i | 0 <= i < |s| ensures JoinStrings(Split(s), [c])[i] == if s[i] == '.' then c else s[i] {
        if i < |t| {
          assert s[i] == t[i];
        }
      }
    }
  }

  /** One more character: a dot adds the separator, anything else adds
      itself. */
  lemma SplitJoinSnoc(t: string, last: char, c: char)
    ensures JoinStrings(Split(t + [last]), [c]) == JoinStrings(Split(t), [c]) + [if last == '.' then c else last]
  {
    var s := t + [last];
    assert s[..|s| - 1] == t && s[|s| - 1] == last;
    var ps := Split(s);
    var init := Split(t);
    var j := JoinStrings(init, [c]);
    if last == '.' {
      JoinStringsSnoc(init, "", [c]);
    } else {
      var front, tail := init[..|init| - 1], init[|init| - 1];
      assert init == front + [tail];
      assert ps == front + [tail + [last]];
      if front == [] {
        JoinStringsSmall(init, [c]);
        JoinStringsSmall(ps, [c]);
      } else {
        JoinStringsSnoc(front, tail, [c]);
        JoinStringsSnoc(front, tail + [last], [c]);
        ConcatAssoc(JoinStrings(front, [c]) + [c], tail, [last]);
      }
    }
  }


  /** Splitting at the dots and joining with dots is the identity. */
  lemma JoinUndoesSplit(s: string)
    ensures JoinStrings(Split(s), ".") == s
  {
    SplitJoin(s, '.');
  }

  /** `module_to_path`. */
  function ModuleToPath(path: string): string
  {
    JoinStrings(Split(path), "/") + ".js"
  }

  /** The path is the module name with every dot replaced by a slash,
      followed by `.js`; a name without dots only gains the suffix. */
  lemma ModuleToPathShape(path: string)
    ensures |ModuleToPath(path)| == |path| + 3
    ensures ModuleToPath(path)[|path|..] == ".js"
    ensures forall i :: 0 <= i < |path| ==> ModuleToPath(path)[i] == if path[i] == '.' then '/' else path[i]
    ensures (forall i :: 0 <= i < |path| ==> path[i] != '.') ==> ModuleToPath(path) == path + ".js"
  {
    SplitJoin(path, '/');
  }

  // ------------------------------------------------------- the import block

  /** The names imported without an alias from module `m`, in the order of
      `xs`. */
  function Selected(xs: seq<ImportedName>, m: string): seq<string>
  {
    if xs == [] then []
    else
      var x := xs[|xs| - 1];
      Selected(xs[..|xs| - 1], m) + (if x.alias.None? && x.moduleName == m then [x.name] else [])
  }

  /** A name is selected exactly when it is imported from `m` without an
      alias. */
  lemma {:induction false} SelectedMembers(xs: seq<ImportedName>, m: string)
    ensures forall n :: n in Selected(xs, m) <==> ImportedName(m, n, None) in xs
  {
    if xs != [] {
      var init, x := xs[..|xs| - 1], xs[|xs| - 1];
      SelectedMembers(init, m);
      assert xs == init + [x];
    }
  }

  lemma SelectedSnoc(xs: seq<ImportedName>, x: ImportedName, m: string)
    ensures Selected(xs + [x], m) == Selected(xs, m) + (if x.alias.None? && x.moduleName == m then [x.name] else [])
  {
    assert (xs + [x])[..|xs|] == xs;
  }

  lemma {:induction false} NothingSelected(xs: seq<ImportedName>, m: string)
    requires forall x :: x in xs ==> !(x.alias.None? && x.moduleName == m)
    ensures Selected(xs, m) == []
  {
    if xs != [] {
      assert xs[|xs| - 1] in xs;
      forall x | x in xs[..|xs| - 1] ensures x in xs { }
      NothingSelected(xs[..|xs| - 1], m);
    }
  }

  /** The modules something is imported from without an alias. */
  function ModulesOf(refs: set<ImportedName>): set<string>
  {
    set i | i in refs && i.alias.None? :: i.moduleName
  }

  /** The names imported from `m` without an alias. */
  function NamesFrom(refs: set<ImportedName>, m: string): set<string>
  {
    set i | i in refs && i.alias.None? && i.moduleName == m :: i.name
  }

  /** The (module, alias) pairs of the aliased imports. */
  function WildcardsOf(refs: set<ImportedName>): set<(string, string)>
  {
    set i | i in refs && i.alias.Some? :: (i.moduleName, i.alias.value)
  }

  /** `import {names} from "path";` */
  function SelectiveImport(m: string, names: seq<string>): Stmt
  {
    Statements.Statement([Scripts.Literal("import "), Scripts.Literal("{"), Scripts.Literal(JoinStrings(names, ", ")),
      Scripts.Literal("}"), Scripts.Literal(" from "), Scripts.String(ModuleToPath(m)), Scripts.Literal(";")])
  }

  /** `import * as alias from "path";` */
  function WildcardImport(m: string, alias: string): Stmt
  {
    Statements.Statement([Scripts.Literal("import * as "), Scripts.Literal(alias), Scripts.Literal(" from "),
      Scripts.String(ModuleToPath(m)), Scripts.Literal(";")])
  }

  /** The line a selective import writes. */
  lemma SelectiveImportText(m: string, names: seq<string>)
    ensures Scripts.PartsText(Js, SelectiveImport(m, names).parts)
         == "import " + "{" + JoinStrings(names, ", ") + "}" + " from " + Quoting.Quoted(ModuleToPath(m)) + ";"
  {
    var ps := SelectiveImport(m, names).parts;
    var a, b := ps[..4], ps[4..];
    assert ps == a + b;
    assert a == [ps[0], ps[1], ps[2], ps[3]] && b == [ps[4], ps[5], ps[6]];
    JsSpecs.TextOfFour(ps[0], ps[1], ps[2], ps[3]);
    JsSpecs.TextOfThree(ps[4], ps[5], ps[6]);
    var ta, tb := Scripts.PartsText(Js, a), Scripts.PartsText(Js, b);
    Scripts.PartsTextAppend(Js, a, b);
    var t4, t5, t6 := Scripts.Text(Js, ps[4]), Scripts.Text(Js, ps[5]), Scripts.Text(Js, ps[6]);
    ConcatAssoc(ta, t4, t5);
    ConcatAssoc(ta, t4 + t5, t6);
  }

  /** The line a wildcard import writes. */
  lemma WildcardImportText(m: string, alias: string)
    ensures Scripts.PartsText(Js, WildcardImport(m, alias).parts)
         == "import * as " + alias + " from " + Quoting.Quoted(ModuleToPath(m)) + ";"
  {
    var ps := WildcardImport(m, alias).parts;
    JsSpecs.TextOfFive(ps[0], ps[1], ps[2], ps[3], ps[4]);
  }

  /** One selective line per module of `ms`, naming what `xs` imports from it. */
  function SelectiveLines(ms: seq<string>, xs: seq<ImportedName>): (r: seq<Tree>)
    ensures |r| == |ms|
  {
    seq(|ms|, k requires 0 <= k < |ms| => Push(SelectiveImport(ms[k], Selected(xs, ms[k]))))
  }

  function WildcardLines(ws: seq<(string, string)>): (r: seq<Tree>)
    ensures |r| == |ws|
  {
    seq(|ws|, k requires 0 <= k < |ws| => Push(WildcardImport(ws[k].0, ws[k].1)))
  }

  /** The iteration orders of the ordered sets involved. */
  ghost function StrOrder(s: set<string>): (r: seq<string>)
    ensures SortedBy(r, StrLess) && forall x :: x in r <==> x in s
  {
    StrLessIsStrictTotal();
    SortedSeq(s, StrLess)
  }

  ghost function ImportOrder(refs: set<ImportedName>): (r: seq<ImportedName>)
    ensures SortedBy(r, ImportedLess) && forall x :: x in r <==> x in refs
  {
    ImportedLessIsStrictTotal();
    SortedSeq(refs, ImportedLess)
  }

  /** What `FileSpec::imports` returns for the names `refs`: nothing when
      there are none, otherwise the selective lines in module order and then
      the wildcard lines in pair order. */
  ghost function ImportBlock(refs: set<ImportedName>): Option<Body>
  {
    if ModulesOf(refs) == {} && WildcardsOf(refs) == {} then None
    else
      Some(ElementLists.Elements(
        SelectiveLines(StrOrder(ModulesOf(refs)), ImportOrder(refs)) + WildcardLines(PairOrder(WildcardsOf(refs)))))
  }

  /** There is an import block exactly when something is imported. */
  lemma ImportBlockPresent(refs: set<ImportedName>)
    ensures ImportBlock(refs).None? <==> refs == {}
  {
    if refs != {} {
      var i :| i in refs;
      if i.alias.None? {
        assert i.moduleName in ModulesOf(refs);
      } else {
        assert (i.moduleName, i.alias.value) in WildcardsOf(refs);
      }
    }
  }

  /** Within one selective import the names are ascending and none repeats:
      they are the set iteration order of the names imported from that
      module. */
  lemma SelectedIsSorted(refs: set<ImportedName>, m: string)
    ensures Selected(ImportOrder(refs), m) == StrOrder(NamesFrom(refs, m))
  {
    StrLessIsStrictTotal();
    var xs := ImportOrder(refs);
    SelectedAscending(xs, m);
    SelectedMembers(xs, m);
    SortedUnique(Selected(xs, m), StrOrder(NamesFrom(refs, m)), StrLess);
  }

  lemma {:induction false} SelectedAscending(xs: seq<ImportedName>, m: string)
    requires SortedBy(xs, ImportedLess)
    ensures SortedBy(Selected(xs, m), StrLess)
    decreases |xs|
  {
    if xs != [] {
      var init, x := xs[..|xs| - 1], xs[|xs| - 1];
      assert SortedBy(init, ImportedLess);
      SelectedAscending(init, m);
      if x.alias.None? && x.moduleName == m {
        var r := Selected(init, m);
        SelectedMembers(init, m);
        forall i | 0 <= i < |r| ensures StrLess(r[i], x.name) {
          assert r[i] in r;
          var y := ImportedName(m, r[i], None);
          var k :| 0 <= k < |init| && init[k] == y;
          assert ImportedLess(y, x);
          StrIrreflexive(m);
        }
      }
    }
  }

  /** Every imported name is written: an unaliased one in its module's
      selective line, an aliased one through its (module, alias) line. */
  lemma ImportBlockCovers(refs: set<ImportedName>, i: ImportedName)
    requires i in refs
    ensures ImportBlock(refs).Some?
    ensures i.alias.None? ==> i.moduleName in StrOrder(ModulesOf(refs)) && i.name in Selected(ImportOrder(refs), i.moduleName)
    ensures i.alias.Some? ==> (i.moduleName, i.alias.value) in PairOrder(WildcardsOf(refs))
  {
    ImportBlockPresent(refs);
    if i.alias.None? {
      var ms := StrOrder(ModulesOf(refs));
      assert i.moduleName in ModulesOf(refs);
      SelectedMembers(ImportOrder(refs), i.moduleName);
      assert ImportedName(i.moduleName, i.name, None) == i;
    } else {
      assert (i.moduleName, i.alias.value) in WildcardsOf(refs);
    }
  }

  /** The modules and the (module, alias) pairs among a list of names. */
  function ModulesIn(xs: seq<ImportedName>): set<string>
  {
    set x | x in xs && x.alias.None? :: x.moduleName
  }

  function PairsIn(xs: seq<ImportedName>): set<(string, string)>
  {
    set x | x in xs && x.alias.Some? :: (x.moduleName, x.alias.value)
  }

  lemma InSnoc(xs: seq<ImportedName>, x: ImportedName)
    ensures ModulesIn(xs + [x]) == ModulesIn(xs) + (if x.alias.None? then {x.moduleName} else {})
    ensures PairsIn(xs + [x]) == PairsIn(xs) + (if x.alias.Some? then {(x.moduleName, x.alias.value)} else {})
  {
    assert forall y :: y in xs + [x] <==> y in xs || y == x;
  }

  /** `collected` and `wildcard` hold what the first loop of
      `FileSpec::imports` has gathered from the names `seen`. */
  ghost predicate Gathered(collected: map<string, seq<string>>, wildcard: set<(string, string)>, seen: seq<ImportedName>)
  {
    && collected.Keys == ModulesIn(seen)
    && (forall m :: m in collected ==> collected[m] == Selected(seen, m))
    && wildcard == PairsIn(seen)
  }

  /** One round of the first loop: an aliased name adds its pair, an
      unaliased one is appended to its module's names, or starts them. */
  method GatherOne(collected: map<string, seq<string>>, wildcard: set<(string, string)>, ghost seen: seq<ImportedName>, x: ImportedName)
    returns (collected': map<string, seq<string>>, wildcard': set<(string, string)>)
    requires Gathered(collected, wildcard, seen)
    ensures Gathered(collected', wildcard', seen + [x])
  {
    InSnoc(seen, x);
    forall m ensures Selected(seen + [x], m) == Selected(seen, m) + (if x.alias.None? && x.moduleName == m then [x.name] else []) {
      SelectedSnoc(seen, x, m);
    }
    collected', wildcard' := collected, wildcard;
    if x.alias.Some? {
      wildcard' := wildcard + {(x.moduleName, x.alias.value)};
    } else if x.moduleName in collected {
      collected' := collected[x.moduleName := collected[x.moduleName] + [x.name]];
    } else {
      forall y | y in seen ensures !(y.alias.None? && y.moduleName == x.moduleName) {
        assert y.alias.None? ==> y.moduleName in ModulesIn(seen);
      }
      NothingSelected(seen, x.moduleName);
      collected' := collected[x.moduleName := [x.name]];
    }
  }

  /** The first loop of `FileSpec::imports`: unaliased names grouped by
      module in visiting order, aliased ones as (module, alias) pairs. */
  method Collect(xs: seq<ImportedName>) returns (collected: map<string, seq<string>>, wildcard: set<(string, string)>)
    ensures collected.Keys == ModulesIn(xs)
    ensures forall m :: m in collected ==> collected[m] == Selected(xs, m)
    ensures wildcard == PairsIn(xs)
  {
    collected, wildcard := map[], {};
    for i := 0 to |xs|
      invariant Gathered(collected, wildcard, xs[..i])
    {
      assert xs[..i + 1] == xs[..i] + [xs[i]];
      collected, wildcard := GatherOne(collected, wildcard, xs[..i], xs[i]);
    }
    assert xs[..|xs|] == xs;
  }

  /** The second loop: one selective statement per module, in key order. */
  method SelectiveStatements(ms: seq<string>, collected: map<string, seq<string>>, ghost xs: seq<ImportedName>) returns (out: Body)
    requires forall m :: m in ms ==> m in collected && collected[m] == Selected(xs, m)
    ensures out.elements == SelectiveLines(ms, xs)
  {
    out := ElementLists.New();
    for k := 0 to |ms|
      invariant out.elements == SelectiveLines(ms[..k], xs)
    {
      assert ms[k] in ms;
      var names := collected[ms[k]];
      var stmt := Statements.New();
      stmt := Statements.Push(stmt, Scripts.Literal("import "));
      stmt := Statements.Push(stmt, Scripts.Literal("{"));
      stmt := Statements.Push(stmt, Scripts.Literal(JoinStrings(names, ", ")));
      stmt := Statements.Push(stmt, Scripts.Literal("}"));
      stmt := Statements.Push(stmt, Scripts.Literal(" from "));
      stmt := Statements.Push(stmt, Scripts.String(ModuleToPath(ms[k])));
      stmt := Statements.Push(stmt, Scripts.Literal(";"));
      assert stmt == SelectiveImport(ms[k], Selected(xs, ms[k]));
      out := ElementLists.Push(out, Push(stmt));
      assert SelectiveLines(ms[..k + 1], xs) == SelectiveLines(ms[..k], xs) + [Push(stmt)];
    }
    assert ms[..|ms|] == ms;
  }

  /** The third loop: one wildcard statement per pair, appended to `out`. */
  method WildcardStatements(ws: seq<(string, string)>, out0: Body) returns (out: Body)
    ensures out.elements == out0.elements + WildcardLines(ws)
  {
    out := out0;
    for k := 0 to |ws|
      invariant out.elements == out0.elements + WildcardLines(ws[..k])
    {
      var stmt := Statements.New();
      stmt := Statements.Push(stmt, Scripts.Literal("import * as "));
      stmt := Statements.Push(stmt, Scripts.Literal(ws[k].1));
      stmt := Statements.Push(stmt, Scripts.Literal(" from "));
      stmt := Statements.Push(stmt, Scripts.String(ModuleToPath(ws[k].0)));
      stmt := Statements.Push(stmt, Scripts.Literal(";"));
      assert stmt == WildcardImport(ws[k].0, ws[k].1);
      out := ElementLists.Push(out, Push(stmt));
      assert WildcardLines(ws[..k + 1]) == WildcardLines(ws[..k]) + [Push(stmt)];
    }
    assert ws[..|ws|] == ws;
  }

  /** `FileSpec::imports` on the collected names. */
  method Imports(refs: set<ImportedName>) returns (r: Option<Body>)
    ensures r == ImportBlock(refs)
  {
    ImportedLessIsStrictTotal();
    StrLessIsStrictTotal();
    PairLessIsStrictTotal();
    var xs := SortedList(refs, ImportedLess);
    assert xs == ImportOrder(refs);
    var collected, wildcard := Collect(xs);
    assert ModulesIn(xs) == ModulesOf(refs);
    assert PairsIn(xs) == WildcardsOf(refs);
    if |collected| == 0 && wildcard == {} {
      return None;
    }
    var ms := SortedList(collected.Keys, StrLess);
    assert ms == StrOrder(ModulesOf(refs));
    var out := SelectiveStatements(ms, collected, xs);
    var ws := SortedList(wildcard, PairLess);
    assert ws == PairOrder(WildcardsOf(refs));
    out := WildcardStatements(ws, out);
    r := Some(out);
  }

  // ------------------------------------------------------------------- file

  /** The tree `FileSpec::format` renders: the import block when there is
      one, then the elements joined by `Spacing`, the two joined by
      `Spacing` again. */
  ghost function FileTree(elements: Body): Tree
  {
    var imports := ImportBlock(JsImports.ElementsImports(elements));
    var parts := (if imports.Some? then [ElementLists.IntoElement(imports.value)] else [])
      + [Inner(Interleave(elements.elements, Spacing))];
    Inner(Interleave(parts, Spacing))
  }

  /** The text `FileSpec::format` writes: the rendered tree and a newline. */
  ghost function FileText(elements: Body): string
  {
    Scripts.LeafWrites(Js, VarsOf(FileTree(elements)));
    Render(FileTree(elements), Scripts.Leaf(Js), ()) + "\n"
  }

  /** `FileSpec`. */
  class FileSpec {
    var elements: Body

    /** `FileSpec::new`: an empty file. */
    constructor ()
      ensures elements == ElementLists.New()
    {
      elements := ElementLists.New();
    }

    /** `push`: one more top-level element. */
    method Push(element: Tree)
      modifies this
      ensures elements == ElementLists.Push(old(elements), element)
    {
      elements := ElementLists.Push(elements, element);
    }

    /** `format`, returning what it writes to the sink. */
    method Format() returns (written: string)
      ensures written == FileText(elements)
    {
      var refs := JsImports.ElementsImports(elements);
      var imports := Imports(refs);
      var parts := ElementLists.New();
      if imports.Some? {
        parts := ElementLists.Push(parts, ElementLists.IntoElement(imports.value));
      }
      var joined := ElementLists.Join(elements, Spacing);
      parts := ElementLists.Push(parts, ElementLists.IntoElement(joined));
      var all := ElementLists.Join(parts, Spacing);
      var tree := ElementLists.IntoElement(all);
      assert tree == FileTree(elements);
      Scripts.LeafWrites(Js, VarsOf(tree));
      var fmt := new ElementFormatter();
      Document.Format(tree, fmt, Scripts.Leaf(Js), ());
      written := fmt.out + "\n";
    }

    /** `to_string`. */
    method ToString() returns (s: string)
      ensures s == FileText(elements)
    {
      s := Format();
    }
  }

  // ---------------------------------------------------------------- example

  /** The name `hello` imported from `foo`. */
  const Hello := ImportedName("foo", "hello", None)

  /** `return hello();` */
  const ReturnHello: Stmt := Statements.Statement([Scripts.Literal("return "), Scripts.Name(Imported(Hello)), Scripts.Literal("();")])

  /** The function `foo` holding that one statement. */
  const FooFunction: Tree := JsSpecs.FunctionTree("foo", [], ElementLists.Elements([Push(ReturnHello)]))

  lemma ExampleImports()
    ensures JsImports.ElementsImports(ElementLists.Elements([FooFunction])) == {Hello}
  {
    var body: Body := ElementLists.Elements([Push(ReturnHello)]);
    JsSpecs.FunctionImports("foo", [], body);
    JsSpecs.OnlyImportsOf(ReturnHello.parts, 1);
    assert JsImports.VariableImports(ReturnHello.parts[1]) == {Hello};
    assert JsImports.StatementsImports([]) == {};
    assert [FooFunction][1..] == [];
    assert [Push(ReturnHello)][1..] == [];
    assert JsImports.ElementImports(Push(ReturnHello)) == JsImports.PartsImports(ReturnHello.parts);
    assert JsImports.AllImports([Push(ReturnHello)]) == JsImports.ElementImports(Push(ReturnHello)) + JsImports.AllImports([]);
    assert JsImports.ElementsImports(body) == {Hello};
  }

  lemma ExampleBlock()
    ensures ImportBlock({Hello}) == Some(ElementLists.Elements([Push(SelectiveImport("foo", ["hello"]))]))
  {
    ImportBlockPresent({Hello});
    ExampleOrders();
    assert Selected([Hello], "foo") == ["hello"] by {
      assert [Hello][..0] == [];
    }
    assert SelectiveLines(["foo"], [Hello]) == [Push(SelectiveImport("foo", ["hello"]))];
    assert WildcardLines([]) == [];
    assert ImportBlock({Hello}).value.elements == SelectiveLines(["foo"], [Hello]) + WildcardLines([]);
    assert SelectiveLines(["foo"], [Hello]) + WildcardLines([]) == [Push(SelectiveImport("foo", ["hello"]))];
  }

  /** The orders the example's import block is built in. */
  lemma ExampleOrders()
    ensures StrOrder(ModulesOf({Hello})) == ["foo"]
    ensures ImportOrder({Hello}) == [Hello]
    ensures PairOrder(WildcardsOf({Hello})) == []
  {
    StrLessIsStrictTotal();
    assert ModulesOf({Hello}) == {"foo"};
    assert WildcardsOf({Hello}) == {};
    SortedUnique(StrOrder({"foo"}), ["foo"], StrLess);
    ImportedLessIsStrictTotal();
    SortedUnique(ImportOrder({Hello}), [Hello], ImportedLess);
    assert PairOrder({}) == [];
  }


  /** The text of `import {hello} from "foo.js";`. */
  lemma ExampleImportText()
    ensures Scripts.PartsText(Js, SelectiveImport("foo", ["hello"]).parts) == "import {hello} from \"foo.js\";"
  {
    SelectiveImportText("foo", ["hello"]);
    JoinStringsSmall(["hello"], ", ");
    FooPath();
    FooEscaped();
    assert Quoting.Quoted(ModuleToPath("foo")) == "\"" + "foo.js" + "\"";
    ExampleImportWords();
  }

  lemma ExampleImportWords()
    ensures "import " + "{" + "hello" + "}" + " from " + ("\"" + "foo.js" + "\"") + ";" == "import {hello} from \"foo.js\";"
  {
    assert "\"" + "foo.js" + "\"" == "\"foo.js\"";
    assert "import " + "{" == "import {";
    assert "import {" + "hello" == "import {hello";
    assert "import {hello" + "}" == "import {hello}";
    assert "import {hello}" + " from " == "import {hello} from ";
    assert "import {hello} from " + "\"foo.js\"" == "import {hello} from \"foo.js\"";
  }

  lemma FooPath()
    ensures ModuleToPath("foo") == "foo.js"
  {
    var p := "foo";
    assert p[0] == 'f' && p[1] == 'o' && p[2] == 'o';
    ModuleToPathShape(p);
    assert p + ".js" == "foo.js";
  }

  lemma FooEscaped()
    ensures Quoting.Escaped("foo.js") == "foo.js"
  {
    var s := "foo.js";
    assert forall i :: 0 <= i < |s| ==> !Quoting.Special(s[i]);
  }

  /** The body of `foo`, entered at level 1 on an empty line. */
  lemma ExampleBody(s: FormatterState)
    requires s.indent == 1 && s.lineEmpty
    ensures Statements.Defined(Scripts.Leaf(Js), VarsOf(Inner(Interleave([Push(ReturnHello)], Spacing))), ())
         && Exec(s, Document.Trace(Inner(Interleave([Push(ReturnHello)], Spacing)), Scripts.Leaf(Js), ()))
         == FormatterState(1, false, s.out + "  return hello();")
  {
    TextOfReturn();
    IndentedLine(s, ReturnHello);
    ConcatAssoc(s.out, "  ", "return hello();");
    assert "  " + "return hello();" == "  return hello();";
  }

  /** A body of one statement, entered at level 1 on an empty line: the
      statement's text after one indentation step. */
  lemma IndentedLine(s: FormatterState, st: Stmt)
    requires s.indent == 1 && s.lineEmpty
    requires Scripts.PartsText(Js, st.parts) != ""
    ensures Statements.Defined(Scripts.Leaf(Js), VarsOf(Inner(Interleave([Push(st)], Spacing))), ())
         && Exec(s, Document.Trace(Inner(Interleave([Push(st)], Spacing)), Scripts.Leaf(Js), ()))
         == FormatterState(1, false, s.out + "  " + Scripts.PartsText(Js, st.parts))
  {
    var e: Tree := Push(st);
    assert Interleave([e], Spacing) == [e];
    Scripts.LeafWrites(Js, VarsOf(Inner([e])));
    Scripts.LeafWrites(Js, VarsOf(e));
    InnerTraceOne(e, Scripts.Leaf(Js), ());
    Scripts.StatementText(Js, st);
    StatementEffect(s, st, Scripts.Leaf(Js), ());
    assert Padding(1) == "  ";
  }

  lemma TextOfReturn()
    ensures Scripts.PartsText(Js, ReturnHello.parts) == "return hello();"
  {
    JsSpecs.TextOfThree(Scripts.Literal("return "), Scripts.Name(Imported(Hello)), Scripts.Literal("();"));
  }

  /** The function `foo` entered at level 0 on an empty line. */
  lemma ExampleFunction(s: FormatterState)
    requires s.indent == 0 && s.lineEmpty
    ensures Statements.Defined(Scripts.Leaf(Js), VarsOf(FooFunction), ())
         && Exec(s, Document.Trace(FooFunction, Scripts.Leaf(Js), ()))
         == FormatterState(0, false, s.out + "function foo() {" + "\n" + "  return hello();" + "\n" + "}")
  {
    var body: Body := ElementLists.Elements([Push(ReturnHello)]);
    var open := JsSpecs.FunctionOpen("foo", []);
    JsSpecs.FunctionOpenText("foo", []);
    JsSpecs.ArgumentsTextSmall([]);
    var text := Scripts.PartsText(Js, open.parts);
    assert text == "function foo() {";
    JsSpecs.BlockRender(s, open, body);
    assert Padding(0) == "";
    var s3 := Opened(s, text);
    assert s3 == FormatterState(1, true, s.out + text + "\n");
    ExampleBody(s3);
  }

  /** The tree of the example file: the import block, `Spacing`, the
      function. */
  lemma ExampleTree()
    ensures FileTree(ElementLists.Elements([FooFunction]))
         == Inner([Inner([Push(SelectiveImport("foo", ["hello"]))]), Spacing, Inner([FooFunction])])
  {
    var elements := ElementLists.Elements([FooFunction]);
    ExampleImports();
    ExampleBlock();
    FileTreeWithImports(elements, ElementLists.Elements([Push(SelectiveImport("foo", ["hello"]))]));
    assert Interleave([FooFunction], Spacing) == [FooFunction];
  }

  /** A file with imports: the import block, an empty line, the body. */
  lemma FileTreeWithImports(elements: Body, block: Body)
    requires ImportBlock(JsImports.ElementsImports(elements)) == Some(block)
    ensures FileTree(elements) == Inner([Inner(block.elements), Spacing, Inner(Interleave(elements.elements, Spacing))])
  {
    var a: Tree := Inner(block.elements);
    var b: Tree := Inner(Interleave(elements.elements, Spacing));
    assert FileTree(elements) == Inner(Interleave([a, b], Spacing));
    SpacedPair(a, b, Spacing);
  }

  /** The import block of the example on a fresh formatter. */
  lemma ExampleHead()
    ensures Statements.Defined(Scripts.Leaf(Js), VarsOf(Inner([Push(SelectiveImport("foo", ["hello"]))])), ())
         && Exec(Fresh, Document.Trace(Inner([Push(SelectiveImport("foo", ["hello"]))]), Scripts.Leaf(Js), ()))
         == FormatterState(0, false, Scripts.PartsText(Js, SelectiveImport("foo", ["hello"]).parts))
  {
    ExampleImportText();
    FirstLine(SelectiveImport("foo", ["hello"]));
  }

  /** A block of one statement on a fresh formatter: the statement's text,
      with the line left open. */
  lemma FirstLine(st: Stmt)
    requires Scripts.PartsText(Js, st.parts) != ""
    ensures Statements.Defined(Scripts.Leaf(Js), VarsOf(Inner([Push(st)])), ())
         && Exec(Fresh, Document.Trace(Inner([Push(st)]), Scripts.Leaf(Js), ()))
         == FormatterState(0, false, Scripts.PartsText(Js, st.parts))
  {
    Scripts.LeafWrites(Js, VarsOf(Inner([Push(st)])));
    Scripts.LeafWrites(Js, VarsOf(Push(st)));
    InnerTraceOne(Push(st), Scripts.Leaf(Js), ());
    Scripts.StatementText(Js, st);
    StatementEffect(Fresh, st, Scripts.Leaf(Js), ());
    assert Padding(0) == "";
  }

  /** The example file up to the function: the import line and an empty
      line. */
  lemma ExampleSteps(a: Tree, b: Tree)
    requires a == Inner([Push(SelectiveImport("foo", ["hello"]))]) && b == Inner([FooFunction])
    ensures Statements.Defined(Scripts.Leaf(Js), VarsOf(Inner([a, Spacing, b])), ()) && Statements.Defined(Scripts.Leaf(Js), VarsOf(b), ())
         && Exec(Fresh, Document.Trace(Inner([a, Spacing, b]), Scripts.Leaf(Js), ()))
         == Exec(FormatterState(0, true, Scripts.PartsText(Js, SelectiveImport("foo", ["hello"]).parts) + "\n\n"), Document.Trace(b, Scripts.Leaf(Js), ()))
  {
    ExampleHead();
    SpacedPairExec(a, b, Scripts.PartsText(Js, SelectiveImport("foo", ["hello"]).parts));
  }

  /** A tree that writes one line, `Spacing`, then a second tree: the second
      starts on an empty line after an empty line. */
  lemma SpacedPairExec(a: Tree, b: Tree, t: string)
    requires Statements.Defined(Scripts.Leaf(Js), VarsOf(a), ())
    requires Exec(Fresh, Document.Trace(a, Scripts.Leaf(Js), ())) == FormatterState(0, false, t)
    ensures Statements.Defined(Scripts.Leaf(Js), VarsOf(Inner([a, Spacing, b])), ()) && Statements.Defined(Scripts.Leaf(Js), VarsOf(b), ())
         && Exec(Fresh, Document.Trace(Inner([a, Spacing, b]), Scripts.Leaf(Js), ()))
         == Exec(FormatterState(0, true, t + "\n\n"), Document.Trace(b, Scripts.Leaf(Js), ()))
  {
    var leaf := Scripts.Leaf(Js);
    Scripts.LeafWrites(Js, VarsOf(Inner([a, Spacing, b])));
    Scripts.LeafWrites(Js, VarsOf(b));
    ExecInner(Fresh, a, [Spacing, b], leaf, ());
    assert [a] + [Spacing, b] == [a, Spacing, b];
    var s1 := FormatterState(0, false, t);
    ExecInner(s1, Spacing, [b], leaf, ());
    assert [Spacing] + [b] == [Spacing, b];
    SpacingEffect(s1, leaf, ());
    InnerTraceOne(b, leaf, ());
  }


  /** A file holding the function `foo`, which returns `hello()` imported
      from `foo`, renders the import, an empty line, then the function. */
  lemma ExampleFile()
    ensures FileText(ElementLists.Elements([FooFunction]))
         == "import {hello} from \"foo.js\";\n\nfunction foo() {\n  return hello();\n}\n"
  {
    var els: Body := ElementLists.Elements([FooFunction]);
    var leaf := Scripts.Leaf(Js);
    var imp := SelectiveImport("foo", ["hello"]);
    var a: Tree := Inner([Push(imp)]);
    var b: Tree := Inner([FooFunction]);
    ExampleTree();
    Scripts.LeafWrites(Js, VarsOf(FileTree(els)));
    Scripts.LeafWrites(Js, VarsOf(b));
    Scripts.LeafWrites(Js, VarsOf(FooFunction));

    ExampleSteps(a, b);
    ExampleImportText();
    var importLine := Scripts.PartsText(Js, imp.parts);
    var s2 := FormatterState(0, true, importLine + "\n\n");
    InnerTraceOne(b, leaf, ());
    InnerTraceOne(FooFunction, leaf, ());
    ExampleFunction(s2);
    var rendered := importLine + "\n\n" + "function foo() {" + "\n" + "  return hello();" + "\n" + "}";
    assert Render(FileTree(els), leaf, ()) == rendered;
    assert FileText(els) == rendered + "\n";
    ExampleString(importLine);
  }

  lemma ExampleString(importLine: string)
    requires importLine == "import {hello} from \"foo.js\";"
    ensures importLine + "\n\n" + "function foo() {" + "\n" + "  return hello();" + "\n" + "}" + "\n"
         == "import {hello} from \"foo.js\";\n\nfunction foo() {\n  return hello();\n}\n"
  {
  }
}
