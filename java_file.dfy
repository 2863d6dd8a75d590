/** The Java file builder: the `package` line, one `import` line per
    imported class, and the declarations, separated by empty lines.

    The classes to import are those the import visitor reports, less the
    ones in `java.lang` and in the file's own package, taken raw.  They are
    visited in the order of the ordered set that holds them; a class whose
    simple name an earlier class already took is not imported, and the
    table of taken names goes to the renderer, which writes every other
    class of that name with its package. */
module JavaFile {
  import opened Orders
  import opened Joins
  import opened Formatter
  import Statements
  import Document
  import ElementLists
  import JavaTypes
  import opened JavaVariables
  import JavaImports
  import opened Blocks

  type Body = ElementLists.Elements<Variable>

  /** An importable class: its package and its simple name.  The raw types
      that `format` collects have no arguments, so the derived order on
      them is the order on these pairs, package first. */
  type Pair = (string, string)

  /** The raw class of a pair. */
  function Raw(p: Pair): JavaTypes.ClassType
  {
    JavaTypes.ClassType(p.0, p.1, [])
  }

  /** The classes `format` keeps from the visitor's report. */
  function Kept(receiver: set<JavaTypes.ClassType>, package: string): set<Pair>
  {
    set t | t in receiver && t.package != "java.lang" && t.package != package :: (t.package, t.name)
  }

  /** A kept pair stands for the raw form of every reported class of that
      package and name; classes of `java.lang` and of the own package are
      never kept. */
  lemma KeptRaw(receiver: set<JavaTypes.ClassType>, package: string)
    ensures forall t :: t in receiver && t.package != "java.lang" && t.package != package
              ==> (t.package, t.name) in Kept(receiver, package) && Raw((t.package, t.name)) == JavaTypes.ToRaw(t)
    ensures forall p :: p in Kept(receiver, package) ==> p.0 != "java.lang" && p.0 != package
    ensures forall p :: p in Kept(receiver, package) <==> exists t :: t in receiver && t.package != "java.lang" && t.package != package && JavaTypes.ToRaw(t) == Raw(p)
  {
    forall p | p in Kept(receiver, package)
      ensures exists t :: t in receiver && t.package != "java.lang" && t.package != package && JavaTypes.ToRaw(t) == Raw(p)
    {
      var t :| t in receiver && t.package != "java.lang" && t.package != package && (t.package, t.name) == p;
      assert JavaTypes.ToRaw(t) == Raw(p);
    }
    forall p | exists t :: t in receiver && t.package != "java.lang" && t.package != package && JavaTypes.ToRaw(t) == Raw(p)
      ensures p in Kept(receiver, package)
    {
      var t :| t in receiver && t.package != "java.lang" && t.package != package && JavaTypes.ToRaw(t) == Raw(p);
      assert (t.package, t.name) == p;
    }
  }

  /** The state of the import loop: the taken names, and the classes that
      got an `import` line, in order. */
  datatype Scan = Scan(locals: map<string, JavaTypes.ClassType>, chosen: seq<Pair>)

  /** The import loop over `ps`, one pair at a time: a pair whose name is
      taken is skipped, otherwise its name is taken by its raw class and it
      gets a line. */
  function ScanPairs(ps: seq<Pair>): Scan
    decreases |ps|
  {
    if ps == [] then Scan(map[], [])
    else
      var prev := ScanPairs(ps[..|ps| - 1]);
      var p := ps[|ps| - 1];
      if p.1 in prev.locals then prev else Scan(prev.locals[p.1 := Raw(p)], prev.chosen + [p])
  }

  /** Only visited pairs get a line, and the table holds exactly the names of
      the pairs that got one, each taken by its own raw class. */
  lemma {:induction false} ScanTable(ps: seq<Pair>)
    ensures forall q :: q in ScanPairs(ps).chosen ==> q in ps
    ensures forall q :: q in ScanPairs(ps).chosen ==> q.1 in ScanPairs(ps).locals && ScanPairs(ps).locals[q.1] == Raw(q)
    ensures forall n :: n in ScanPairs(ps).locals ==> exists q :: q in ScanPairs(ps).chosen && q.1 == n
    decreases |ps|
  {
    if ps != [] {
      var init := ps[..|ps| - 1];
      var p := ps[|ps| - 1];
      ScanTable(init);
      assert forall q :: q in init ==> q in ps;
      var prev := ScanPairs(init);
      if p.1 !in prev.locals {
        var sc := ScanPairs(ps);
        assert sc == Scan(prev.locals[p.1 := Raw(p)], prev.chosen + [p]);
        forall q | q in sc.chosen ensures q.1 in sc.locals && sc.locals[q.1] == Raw(q) {
          if q != p {
            assert q in prev.chosen;
          }
        }
        forall n | n in sc.locals ensures exists q :: q in sc.chosen && q.1 == n {
          if n != p.1 {
            var q :| q in prev.chosen && q.1 == n;
            assert q in sc.chosen;
          } else {
            assert p in sc.chosen;
          }
        }
      }
    }
  }

  /** Every visited name ends up taken. */
  lemma {:induction false} ScanCovers(ps: seq<Pair>)
    ensures forall i :: 0 <= i < |ps| ==> ps[i].1 in ScanPairs(ps).locals
    decreases |ps|
  {
    if ps != [] {
      var init := ps[..|ps| - 1];
      ScanCovers(init);
      forall i | 0 <= i < |ps| ensures ps[i].1 in ScanPairs(ps).locals {
        if i < |init| {
          assert ps[i] == init[i];
        }
      }
    }
  }

  /** No two import lines are for the same simple name. */
  lemma {:induction false} ScanDistinctNames(ps: seq<Pair>)
    ensures forall i, j :: 0 <= i < j < |ScanPairs(ps).chosen| ==> ScanPairs(ps).chosen[i].1 != ScanPairs(ps).chosen[j].1
    decreases |ps|
  {
    if ps != [] {
      var init := ps[..|ps| - 1];
      var p := ps[|ps| - 1];
      ScanDistinctNames(init);
      ScanTable(init);
      var prev := ScanPairs(init);
      if p.1 !in prev.locals {
        var cs := prev.chosen + [p];
        forall i, j | 0 <= i < j < |cs| ensures cs[i].1 != cs[j].1 {
          if j == |prev.chosen| {
            assert cs[i] in prev.chosen;
          }
        }
      }
    }
  }

  /** A pair visited last, after pairs that do not include it, gets a line
      exactly when no pair before it has its simple name. */
  lemma ScanLastStep(init: seq<Pair>, p: Pair)
    requires p !in init
    ensures p in ScanPairs(init + [p]).chosen <==> forall j :: 0 <= j < |init| ==> init[j].1 != p.1
  {
    assert (init + [p])[..|init|] == init;
    if p.1 in ScanPairs(init).locals {
      LastShadowed(init, p);
    } else {
      ScanCovers(init);
    }
  }

  /** A pair whose name an earlier pair took gets no line of its own. */
  lemma LastShadowed(init: seq<Pair>, p: Pair)
    requires p !in init
    requires p.1 in ScanPairs(init).locals
    ensures p !in ScanPairs(init).chosen
    ensures exists j :: 0 <= j < |init| && init[j].1 == p.1
  {
    ScanTable(init);
    var q :| q in ScanPairs(init).chosen && q.1 == p.1;
    var j :| 0 <= j < |init| && init[j] == q;
  }

  /** A pair other than the last gets a line exactly when it got one before
      the last pair was visited. */
  lemma ScanKeepsEarlier(ps: seq<Pair>, q: Pair)
    requires ps != [] && q != ps[|ps| - 1]
    ensures q in ScanPairs(ps).chosen <==> q in ScanPairs(ps[..|ps| - 1]).chosen
  {
  }

  /** A pair of `ps` without repeats gets a line exactly when no pair before
      it has its simple name: the first class of a name wins. */
lemma {:induction false} ScanFirstWins(ps: seq<Pair>)
    requires forall i, j :: 0 <= i < j < |ps| ==> ps[i] != ps[j]
    ensures forall i :: 0 <= i < |ps| ==> (ps[i] in ScanPairs(ps).chosen <==> forall j :: 0 <= j < i ==> ps[j].1 != ps[i].1)
    decreases |ps|
  {
    if ps != [] {
      var init := ps[..|ps| - 1];
      var last := ps[|ps| - 1];
      ScanFirstWins(init);
      assert init + [last] == ps;
      assert forall j :: 0 <= j < |init| ==> ps[j] == init[j] && init[j] != last;
      ScanLastStep(init, last);
      forall i | 0 <= i < |init| ensures ps[i] in ScanPairs(ps).chosen <==> forall j :: 0 <= j < i ==> ps[j].1 != ps[i].1 {
        assert ps[i] == init[i];
        assert forall j :: 0 <= j < i ==> ps[j] == init[j];
        ScanKeepsEarlier(ps, ps[i]);
      }
    }
  }


  /** Visiting a sorted sequence, the import lines come out sorted. */
  lemma {:induction false} ScanSorted(ps: seq<Pair>)
    requires SortedBy(ps, PairLess)
    ensures SortedBy(ScanPairs(ps).chosen, PairLess)
    decreases |ps|
  {
    if ps != [] {
      var init := ps[..|ps| - 1];
      var p := ps[|ps| - 1];
      ScanSorted(init);
      ScanTable(init);
      var prev := ScanPairs(init);
      if p.1 !in prev.locals {
        var cs := prev.chosen + [p];
        forall i, j | 0 <= i < j < |cs| ensures PairLess(cs[i], cs[j]) {
          if j == |prev.chosen| {
            assert cs[i] in init;
            var k :| 0 <= k < |init| && init[k] == cs[i];
            assert ps[k] == cs[i];
          }
        }
      }
    }
  }

  /** A sorted sequence has no repeats. */
  lemma SortedDistinct(ps: seq<Pair>)
    requires SortedBy(ps, PairLess)
    ensures forall i, j :: 0 <= i < j < |ps| ==> ps[i] != ps[j]
  {
    forall i, j | 0 <= i < j < |ps| ensures ps[i] != ps[j] {
      StrIrreflexive(ps[i].0);
      StrIrreflexive(ps[i].1);
    }
  }

  /** Visiting a sorted sequence, of two pairs with the same simple name
      the one whose package comes first gets the line. */
  lemma ScanLeastPackage(ps: seq<Pair>)
    requires SortedBy(ps, PairLess)
    ensures forall q, p :: q in ScanPairs(ps).chosen && p in ps && p.1 == q.1 && p != q ==> StrLess(q.0, p.0)
  {
    ScanTable(ps);
    SortedDistinct(ps);
    ScanFirstWins(ps);
    forall q, p | q in ScanPairs(ps).chosen && p in ps && p.1 == q.1 && p != q ensures StrLess(q.0, p.0) {
      var i :| 0 <= i < |ps| && ps[i] == q;
      var k :| 0 <= k < |ps| && ps[k] == p;
      assert i < k;
      assert PairLess(q, p);
      StrIrreflexive(q.1);
    }
  }

  /** Some pair gets a line exactly when some pair is visited: the first
      one always does. */
  lemma ScanNonEmpty(ps: seq<Pair>)
    requires forall i, j :: 0 <= i < j < |ps| ==> ps[i] != ps[j]
    ensures ScanPairs(ps).chosen == [] <==> ps == []
  {
    ScanTable(ps);
    if ps != [] {
      ScanFirstWins(ps);
      assert ps[0] in ScanPairs(ps).chosen;
    }
  }

  /** The imported classes of a file, in order, and the names they take. */
  ghost function FileScan(package: string, elements: Body): Scan
  {
    ScanPairs(PairOrder(Kept(JavaImports.ElementsImports(elements), package)))
  }

  /** The classes that get an import line are kept classes, in ascending
      order, one per simple name; every kept class's name is taken, and
      when two kept classes share a name the one whose package comes first
      gets the line. */
  lemma FileImportsChosen(package: string, elements: Body)
    ensures var sc := FileScan(package, elements);
            var kept := Kept(JavaImports.ElementsImports(elements), package);
            && (forall q :: q in sc.chosen ==> q in kept && q.0 != "java.lang" && q.0 != package)
            && SortedBy(sc.chosen, PairLess)
            && (forall i, j :: 0 <= i < j < |sc.chosen| ==> sc.chosen[i].1 != sc.chosen[j].1)
            && (forall p :: p in kept ==> p.1 in sc.locals)
            && (forall q, p :: q in sc.chosen && p in kept && p.1 == q.1 && p != q ==> StrLess(q.0, p.0))
            && (sc.chosen == [] <==> kept == {})
  {
    FileChosenOrdered(package, elements);
    FileChosenCovers(package, elements);
  }

  lemma FileChosenOrdered(package: string, elements: Body)
    ensures var sc := FileScan(package, elements);
            var kept := Kept(JavaImports.ElementsImports(elements), package);
            && (forall q :: q in sc.chosen ==> q in kept && q.0 != "java.lang" && q.0 != package)
            && SortedBy(sc.chosen, PairLess)
            && (forall i, j :: 0 <= i < j < |sc.chosen| ==> sc.chosen[i].1 != sc.chosen[j].1)
  {
    var receiver := JavaImports.ElementsImports(elements);
    var ps := PairOrder(Kept(receiver, package));
    KeptRaw(receiver, package);
    ScanTable(ps);
    ScanSorted(ps);
    ScanDistinctNames(ps);
  }

  lemma FileChosenCovers(package: string, elements: Body)
    ensures var sc := FileScan(package, elements);
            var kept := Kept(JavaImports.ElementsImports(elements), package);
            && (forall p :: p in kept ==> p.1 in sc.locals)
            && (forall q, p :: q in sc.chosen && p in kept && p.1 == q.1 && p != q ==> StrLess(q.0, p.0))
            && (sc.chosen == [] <==> kept == {})
  {
    var kept := Kept(JavaImports.ElementsImports(elements), package);
    var ps := PairOrder(kept);
    var sc := ScanPairs(ps);
    ScanCovers(ps);
    ScanLeastPackage(ps);
    SortedDistinct(ps);
    ScanNonEmpty(ps);
    forall p | p in kept ensures p.1 in sc.locals {
      var i :| 0 <= i < |ps| && ps[i] == p;
    }
    if kept != {} {
      var p :| p in kept;
      assert p in ps;
    }
  }


  /** A reported class outside `java.lang` and the own package is written
      by its simple name exactly when it got the import line for its name;
      otherwise the name was taken by another class and it is written with
      its package. */
  lemma ImportedIffSimple(package: string, elements: Body, t: JavaTypes.ClassType)
    requires t in JavaImports.ElementsImports(elements) && t.package != "java.lang" && t.package != package
    ensures var sc := FileScan(package, elements);
            (t.package, t.name) in sc.chosen <==> !AbsoluteImport(WithLocals(sc.locals), t.name, t)
  {
    var receiver := JavaImports.ElementsImports(elements);
    var sc := FileScan(package, elements);
    var p := (t.package, t.name);
    KeptRaw(receiver, package);
    FileImportsChosen(package, elements);
    ScanTable(PairOrder(Kept(receiver, package)));
    assert p.1 in sc.locals;
    if p !in sc.chosen {
      var q :| q in sc.chosen && q.1 == p.1;
      assert sc.locals[p.1] == Raw(q);
      assert Raw(q) != Raw(p);
    }
  }

  /** `package <name>;`, push by push. */
  function PackageStatement(package: string): Stmt
  {
    Statements.Statement([Lit("package "), Lit(package), Lit(";")])
  }

  /** `import <package>.<name>;`. */
  function ImportStatement(p: Pair): Stmt
  {
    Statements.Statement([Lit("import "), Lit(p.0), Lit("."), Lit(p.1), Lit(";")])
  }

  function ImportText(p: Pair): string
  {
    "import " + p.0 + "." + p.1 + ";"
  }

  function ImportLines(cs: seq<Pair>): (r: seq<Tree>)
    ensures |r| == |cs| && forall k :: 0 <= k < |cs| ==> r[k] == Document.Push(ImportStatement(cs[k]))
  {
    seq(|cs|, k requires 0 <= k < |cs| => Document.Push(ImportStatement(cs[k])))
  }

  function ImportTexts(cs: seq<Pair>): (r: seq<string>)
    ensures |r| == |cs| && forall k :: 0 <= k < |cs| ==> r[k] == ImportText(cs[k])
  {
    seq(|cs|, k requires 0 <= k < |cs| => ImportText(cs[k]))
  }

  /** The import lines as they are pushed, one pair at a time. */
  method ImportLine(p: Pair) returns (st: Stmt)
    ensures st == ImportStatement(p)
  {
    st := Statements.New();
    st := Statements.Push(st, Lit("import "));
    st := Statements.Push(st, Lit(p.0));
    st := Statements.Push(st, Lit("."));
    st := Statements.Push(st, Lit(p.1));
    st := Statements.Push(st, Lit(";"));
  }

  /** The loop of `format` over the ordered kept classes: the names taken
      and the import lines pushed are those of `ScanPairs`. */
  method ImportAll(order: seq<Pair>) returns (locals: map<string, JavaTypes.ClassType>, imported: Body)
    ensures locals == ScanPairs(order).locals
    ensures imported.elements == ImportLines(ScanPairs(order).chosen)
  {
    locals := map[];
    imported := ElementLists.New();
    for k := 0 to |order|
      invariant locals == ScanPairs(order[..k]).locals
      invariant imported.elements == ImportLines(ScanPairs(order[..k]).chosen)
    {
      var t := order[k];
      assert order[..k + 1][..k] == order[..k];
      if t.1 in locals {
        continue;
      }
      locals := locals[t.1 := Raw(t)];
      var st := ImportLine(t);
      var before := imported.elements;
      imported := ElementLists.Push(imported, Document.Push(st));
      assert imported.elements == before + [Document.Push(st)];
      assert ImportLines(ScanPairs(order[..k]).chosen + [t]) == ImportLines(ScanPairs(order[..k]).chosen) + [Document.Push(st)];
    }
    assert order[..|order|] == order;
  }

  /** The file's top-level parts: the package line, the import lines when
      some class is kept, and the declarations joined by `Spacing`. */
  ghost function FileParts(package: string, elements: Body): seq<Tree>
  {
    [Document.Push(PackageStatement(package))]
    + ImportBlock(package, elements)
    + [Document.Inner(Interleave(elements.elements, Document.Spacing))]
  }

  /** The import block: nothing when no class is kept, otherwise the
      import lines as one element. */
  ghost function ImportBlock(package: string, elements: Body): seq<Tree>
  {
    if Kept(JavaImports.ElementsImports(elements), package) != {}
    then [Document.Inner(ImportLines(FileScan(package, elements).chosen))]
    else []
  }

  /** The tree `format` renders: the parts joined by `Spacing`. */
  ghost function FileTree(package: string, elements: Body): Tree
  {
    Document.Inner(Interleave(FileParts(package, elements), Document.Spacing))
  }

  /** The extra state the file is rendered with: its taken names. */
  ghost function FileExtra(package: string, elements: Body): Extra
  {
    WithLocals(FileScan(package, elements).locals)
  }

  /** The leaf writes literal text as itself, and every declaration is
      renderable under the file's taken names. */
  ghost predicate Renderable(package: string, elements: Body, leaf: Statements.Leaf<Variable, Extra>)
  {
    var x := FileExtra(package, elements);
    WritesText(leaf, Lit, x)
    && forall c :: c in elements.elements ==> Statements.Defined(leaf, Document.VarsOf(c), x)
  }

  /** An import line is renderable and writes its text. */
  lemma ImportStatementText<X>(p: Pair, leaf: Statements.Leaf<Variable, X>, x: X)
    requires WritesText(leaf, Lit, x)
    ensures Statements.Defined(leaf, Statements.Vars(ImportStatement(p)), x)
         && Statements.Writes(leaf, Statements.Vars(ImportStatement(p)), x)
         && Document.StatementText(ImportStatement(p), leaf, x) == ImportText(p)
  {
    var ts := ["import ", p.0, ".", p.1, ";"];
    TextStatement(ts, leaf, Lit, x);
    assert TextParts(ts, Lit) == ImportStatement(p).parts;
    assert ts == ["import ", p.0, "."] + [p.1, ";"];
    FlattenAppend(["import ", p.0, "."], [p.1, ";"]);
    FlattenSmall("import ", p.0, ".");
    FlattenSmall(p.1, ";", "");
  }

  /** The package line is renderable and writes `package <name>;`. */
  lemma PackageStatementText<X>(package: string, leaf: Statements.Leaf<Variable, X>, x: X)
    requires WritesText(leaf, Lit, x)
    ensures Statements.Defined(leaf, Statements.Vars(PackageStatement(package)), x)
         && Statements.Writes(leaf, Statements.Vars(PackageStatement(package)), x)
         && Document.StatementText(PackageStatement(package), leaf, x) == "package " + package + ";"
  {
    var ts := ["package ", package, ";"];
    TextStatement(ts, leaf, Lit, x);
    assert TextParts(ts, Lit) == PackageStatement(package).parts;
    FlattenSmall("package ", package, ";");
  }

  lemma ImportLinesWrite<X>(cs: seq<Pair>, leaf: Statements.Leaf<Variable, X>, x: X)
    requires WritesText(leaf, Lit, x)
    ensures forall c :: c in ImportLines(cs) ==> Statements.Defined(leaf, Document.VarsOf(c), x)
  {
    forall c | c in ImportLines(cs) ensures Statements.Defined(leaf, Document.VarsOf(c), x) {
      var k :| 0 <= k < |cs| && ImportLines(cs)[k] == c;
      ImportStatementText(cs[k], leaf, x);
    }
  }

  lemma ImportLinesDefined<X>(cs: seq<Pair>, leaf: Statements.Leaf<Variable, X>, x: X)
    requires WritesText(leaf, Lit, x)
    ensures forall i :: 0 <= i < |ImportLines(cs)| ==> Statements.Defined(leaf, Document.VarsOf(ImportLines(cs)[i]), x)
  {
    ImportLinesWrite(cs, leaf, x);
    assert forall i :: 0 <= i < |ImportLines(cs)| ==> ImportLines(cs)[i] in ImportLines(cs);
  }

  /** The trace of one more line: the others' trace, then that line's. */
  lemma ImportTraceSnoc<X>(init: seq<Pair>, p: Pair, leaf: Statements.Leaf<Variable, X>, x: X)
    requires WritesText(leaf, Lit, x)
    ensures forall i :: 0 <= i < |ImportLines(init)| ==> Statements.Defined(leaf, Document.VarsOf(ImportLines(init)[i]), x)
    ensures forall i :: 0 <= i < |ImportLines(init + [p])| ==> Statements.Defined(leaf, Document.VarsOf(ImportLines(init + [p])[i]), x)
    ensures Statements.Defined(leaf, Document.VarsOf(Document.Push(ImportStatement(p))), x)
    ensures Exec(Fresh, Document.InnerTrace(ImportLines(init + [p]), leaf, x))
         == Exec(Exec(Fresh, Document.InnerTrace(ImportLines(init), leaf, x)), Document.Trace(Document.Push(ImportStatement(p)), leaf, x))
  {
    ImportLinesDefined(init, leaf, x);
    ImportLinesDefined(init + [p], leaf, x);
    ImportStatementText(p, leaf, x);
    var li := ImportLines(init);
    var l: Tree := Document.Push(ImportStatement(p));
    assert ImportLines(init + [p]) == li + [l];
    Document.InnerTraceAppend(li, [l], leaf, x);
    Document.InnerTraceOne(l, leaf, x);
    ExecAppend(Fresh, Document.InnerTrace(li, leaf, x), Document.Trace(l, leaf, x));
  }

  /** The texts of one more line, joined. */
  lemma ImportTextsSnoc(init: seq<Pair>, p: Pair)
    ensures JoinStrings(ImportTexts(init + [p]), "\n")
         == if init == [] then ImportText(p) else JoinStrings(ImportTexts(init), "\n") + "\n" + ImportText(p)
  {
    assert ImportTexts(init + [p]) == ImportTexts(init) + [ImportText(p)];
    if init != [] {
      JoinStringsSnoc(ImportTexts(init), ImportText(p), "\n");
    } else {
      JoinStringsSmall([ImportText(p)], "\n");
    }
  }

  /** One import line at level 0: a line break unless the line is empty,
      then its text. */
  lemma ImportLineAfter<X>(s: FormatterState, p: Pair, leaf: Statements.Leaf<Variable, X>, x: X)
    requires WritesText(leaf, Lit, x) && s.indent == 0
    ensures Statements.Defined(leaf, Document.VarsOf(Document.Push(ImportStatement(p))), x)
    ensures Exec(s, Document.Trace(Document.Push(ImportStatement(p)), leaf, x))
         == FormatterState(0, false, s.out + (if s.lineEmpty then "" else "\n") + ImportText(p))
  {
    ImportStatementText(p, leaf, x);
    Document.StatementEffect(s, ImportStatement(p), leaf, x);
    assert Padding(0) == "";
  }

  /** The import lines from a fresh line: their texts joined by a line
      break. */
  lemma {:induction false} ImportLinesExec<X>(cs: seq<Pair>, leaf: Statements.Leaf<Variable, X>, x: X)
    requires WritesText(leaf, Lit, x)
    ensures forall i :: 0 <= i < |ImportLines(cs)| ==> Statements.Defined(leaf, Document.VarsOf(ImportLines(cs)[i]), x)
    ensures Exec(Fresh, Document.InnerTrace(ImportLines(cs), leaf, x)) == FormatterState(0, cs == [], JoinStrings(ImportTexts(cs), "\n"))
    decreases |cs|
  {
    ImportLinesDefined(cs, leaf, x);
    if cs == [] {
      JoinStringsSmall(ImportTexts(cs), "\n");
    } else {
      var init, p := cs[..|cs| - 1], cs[|cs| - 1];
      assert init + [p] == cs;
      ImportLinesExec(init, leaf, x);
      ImportLinesStep(init, p, leaf, x);
    }
  }

  /** The inductive step: one more line after the others. */
  lemma ImportLinesStep<X>(init: seq<Pair>, p: Pair, leaf: Statements.Leaf<Variable, X>, x: X)
    requires WritesText(leaf, Lit, x)
    requires forall i :: 0 <= i < |ImportLines(init)| ==> Statements.Defined(leaf, Document.VarsOf(ImportLines(init)[i]), x)
    requires Exec(Fresh, Document.InnerTrace(ImportLines(init), leaf, x)) == FormatterState(0, init == [], JoinStrings(ImportTexts(init), "\n"))
    ensures forall i :: 0 <= i < |ImportLines(init + [p])| ==> Statements.Defined(leaf, Document.VarsOf(ImportLines(init + [p])[i]), x)
    ensures Exec(Fresh, Document.InnerTrace(ImportLines(init + [p]), leaf, x)) == FormatterState(0, false, JoinStrings(ImportTexts(init + [p]), "\n"))
  {
    ImportTraceSnoc(init, p, leaf, x);
    ImportTextsSnoc(init, p);
    var s1 := Exec(Fresh, Document.InnerTrace(ImportLines(init), leaf, x));
    ImportLineAfter(s1, p, leaf, x);
    if init == [] {
      assert "" + "" + ImportText(p) == ImportText(p);
    }
  }


  /** What the import block adds: nothing, or the lines and an empty line. */
  function ImportsText(cs: seq<Pair>): string
  {
    if cs == [] then "" else JoinStrings(ImportTexts(cs), "\n") + "\n\n"
  }

  /** From an empty line at the outer level, a tree writes what it renders
      to on a fresh formatter. */
  lemma FromEmptyLine<X>(s: FormatterState, e: Tree, leaf: Statements.Leaf<Variable, X>, x: X)
    requires Statements.Defined(leaf, Document.VarsOf(e), x)
    requires s.indent == 0 && s.lineEmpty
    ensures Exec(s, Document.Trace(e, leaf, x)).out == s.out + Document.Render(e, leaf, x)
  {
    ExecOut(s, Document.Trace(e, leaf, x));
    assert s.(out := "") == Fresh;
  }

  /** The package line and a `Spacing` write `package <name>;` and an empty
      line. */
  lemma PackageExec<X>(package: string, leaf: Statements.Leaf<Variable, X>, x: X)
    requires WritesText(leaf, Lit, x)
    ensures Statements.Defined(leaf, Document.VarsOf(Document.Push(PackageStatement(package))), x)
    ensures Exec(Exec(Fresh, Document.Trace(Document.Push(PackageStatement(package)), leaf, x)), Document.Trace(Document.Spacing, leaf, x))
         == FormatterState(0, true, "package " + package + ";" + "\n\n")
  {
    PackageStatementText(package, leaf, x);
    Document.StatementEffect(Fresh, PackageStatement(package), leaf, x);
    assert Padding(0) == "";
    var s1 := FormatterState(0, false, "package " + package + ";");
    assert Exec(Fresh, Document.Trace(Document.Push(PackageStatement(package)), leaf, x)) == s1;
    Document.SpacingEffect(s1, leaf, x);
  }

  /** The import lines and a `Spacing` after an empty line. */
  lemma ImportsExec<X>(s: FormatterState, cs: seq<Pair>, leaf: Statements.Leaf<Variable, X>, x: X)
    requires WritesText(leaf, Lit, x)
    requires s.indent == 0 && s.lineEmpty && cs != []
    ensures Statements.Defined(leaf, Document.VarsOf(Document.Inner(ImportLines(cs))), x)
    ensures Exec(Exec(s, Document.Trace(Document.Inner(ImportLines(cs)), leaf, x)), Document.Trace(Document.Spacing, leaf, x))
         == FormatterState(0, true, s.out + ImportsText(cs))
  {
    ImportLinesWrite(cs, leaf, x);
    InnerWrites(ImportLines(cs), leaf, x);
    ImportLinesExec(cs, leaf, x);
    var block: Tree := Document.Inner(ImportLines(cs));
    ExecOut(s, Document.Trace(block, leaf, x));
    assert s.(out := "") == Fresh;
    var s1 := Exec(s, Document.Trace(block, leaf, x));
    assert s1 == FormatterState(0, false, s.out + JoinStrings(ImportTexts(cs), "\n"));
    Document.SpacingEffect(s1, leaf, x);
  }

  /** The file as it is rendered, for any import lines `cs` and a block
      that is present exactly when there are lines. */
  lemma FileShape<X>(package: string, cs: seq<Pair>, body: Tree, leaf: Statements.Leaf<Variable, X>, x: X)
    requires WritesText(leaf, Lit, x)
    requires Statements.Defined(leaf, Document.VarsOf(body), x)
    ensures var parts := [Document.Push(PackageStatement(package))] + (if cs != [] then [Document.Inner(ImportLines(cs))] else []) + [body];
            Statements.Defined(leaf, Document.VarsOf(Document.Inner(Interleave(parts, Document.Spacing))), x)
            && Document.Render(Document.Inner(Interleave(parts, Document.Spacing)), leaf, x)
               == "package " + package + ";" + "\n\n" + ImportsText(cs) + Document.Render(body, leaf, x)
  {
    if cs == [] {
      BareFileShape(package, body, leaf, x);
      assert ImportsText(cs) == "";
    } else {
      ImportingFileShape(package, cs, body, leaf, x);
    }
  }

  /** A file without import lines: the package line, an empty line, the
      declarations. */
  lemma BareFileShape<X>(package: string, body: Tree, leaf: Statements.Leaf<Variable, X>, x: X)
    requires WritesText(leaf, Lit, x)
    requires Statements.Defined(leaf, Document.VarsOf(body), x)
    ensures var parts := [Document.Push(PackageStatement(package)), body];
            Statements.Defined(leaf, Document.VarsOf(Document.Inner(Interleave(parts, Document.Spacing))), x)
            && Document.Render(Document.Inner(Interleave(parts, Document.Spacing)), leaf, x)
               == "package " + package + ";" + "\n\n" + Document.Render(body, leaf, x)
  {
    var head: Tree := Document.Push(PackageStatement(package));
    var sp: Tree := Document.Spacing;
    PackageExec(package, leaf, x);
    var s2 := FormatterState(0, true, "package " + package + ";" + "\n\n");
    PackageStatementText(package, leaf, x);
    var es := [head, sp, body];
    assert Interleave([head, body], sp) == es;
    FromEmptyLine(s2, body, leaf, x);
    Document.ExecInner(s2, body, [], leaf, x);
    assert [body] + [] == [body];
    Document.ExecInner(Exec(Fresh, Document.Trace(head, leaf, x)), sp, [body], leaf, x);
    assert [sp] + [body] == [sp, body];
    Document.ExecInner(Fresh, head, [sp, body], leaf, x);
    assert [head] + [sp, body] == es;
  }

  /** A file with import lines: the package line, an empty line, the import
      lines, an empty line, the declarations. */
  lemma ImportingFileShape<X>(package: string, cs: seq<Pair>, body: Tree, leaf: Statements.Leaf<Variable, X>, x: X)
    requires cs != []
    requires WritesText(leaf, Lit, x)
    requires Statements.Defined(leaf, Document.VarsOf(body), x)
    ensures var parts := [Document.Push(PackageStatement(package)), Document.Inner(ImportLines(cs)), body];
            Statements.Defined(leaf, Document.VarsOf(Document.Inner(Interleave(parts, Document.Spacing))), x)
            && Document.Render(Document.Inner(Interleave(parts, Document.Spacing)), leaf, x)
               == "package " + package + ";" + "\n\n" + ImportsText(cs) + Document.Render(body, leaf, x)
  {
    var head: Tree := Document.Push(PackageStatement(package));
    var sp: Tree := Document.Spacing;
    var block: Tree := Document.Inner(ImportLines(cs));
    PackageExec(package, leaf, x);
    var s2 := FormatterState(0, true, "package " + package + ";" + "\n\n");
    ImportsThenBody(s2, cs, body, leaf, x);
    Document.ExecInner(Exec(Fresh, Document.Trace(head, leaf, x)), sp, [block, sp, body], leaf, x);
    assert [sp] + [block, sp, body] == [sp, block, sp, body];
    Document.ExecInner(Fresh, head, [sp, block, sp, body], leaf, x);
    SpacedThree(head, block, body, sp);
    assert [head] + [sp, block, sp, body] == Interleave([head, block, body], sp);
  }

  /** From an empty line at level 0: the import lines, an empty line and the
      declarations. */
  lemma ImportsThenBody<X>(s: FormatterState, cs: seq<Pair>, body: Tree, leaf: Statements.Leaf<Variable, X>, x: X)
    requires cs != [] && s.indent == 0 && s.lineEmpty
    requires WritesText(leaf, Lit, x)
    requires Statements.Defined(leaf, Document.VarsOf(body), x)
    ensures var es := [Document.Inner(ImportLines(cs)), Document.Spacing, body];
            (forall i :: 0 <= i < |es| ==> Statements.Defined(leaf, Document.VarsOf(es[i]), x))
            && Exec(s, Document.InnerTrace(es, leaf, x)).out == s.out + ImportsText(cs) + Document.Render(body, leaf, x)
  {
    var sp: Tree := Document.Spacing;
    var block: Tree := Document.Inner(ImportLines(cs));
    ImportsExec(s, cs, leaf, x);
    var s4 := FormatterState(0, true, s.out + ImportsText(cs));
    FromEmptyLine(s4, body, leaf, x);
    Document.ExecThree(s, block, sp, body, leaf, x);
  }



  /** The file tree is renderable. */
  lemma FileDefined(package: string, elements: Body, leaf: Statements.Leaf<Variable, Extra>)
    requires Renderable(package, elements, leaf)
    ensures Statements.Defined(leaf, Document.VarsOf(FileTree(package, elements)), FileExtra(package, elements))
  {
    var x := FileExtra(package, elements);
    var cs := FileScan(package, elements).chosen;
    FileImportsChosen(package, elements);
    var body: Tree := Document.Inner(Interleave(elements.elements, Document.Spacing));
    InterleaveMembers(elements.elements, Document.Spacing);
    InnerDefined(Interleave(elements.elements, Document.Spacing), leaf, x);
    FileShape(package, cs, body, leaf, x);
  }

  /** What `format` writes: the rendered tree and a newline. */
  ghost function FileText(package: string, elements: Body, leaf: Statements.Leaf<Variable, Extra>): string
    requires Renderable(package, elements, leaf)
  {
    FileDefined(package, elements, leaf);
    Document.Render(FileTree(package, elements), leaf, FileExtra(package, elements)) + "\n"
  }

  /** A file is `package <name>;` and an empty line, then the import lines
      and an empty line when there are any, then the declarations joined by
      empty lines and rendered with the file's taken names, then a newline. */
  lemma FileTextShape(package: string, elements: Body, leaf: Statements.Leaf<Variable, Extra>)
    requires Renderable(package, elements, leaf)
    ensures var x := FileExtra(package, elements);
            var body: Tree := Document.Inner(Interleave(elements.elements, Document.Spacing));
            Statements.Defined(leaf, Document.VarsOf(body), x)
            && FileText(package, elements, leaf)
               == "package " + package + ";" + "\n\n" + ImportsText(FileScan(package, elements).chosen) + Document.Render(body, leaf, x) + "\n"
  {
    var x := FileExtra(package, elements);
    var cs := FileScan(package, elements).chosen;
    FileImportsChosen(package, elements);
    var body: Tree := Document.Inner(Interleave(elements.elements, Document.Spacing));
    InterleaveMembers(elements.elements, Document.Spacing);
    InnerDefined(Interleave(elements.elements, Document.Spacing), leaf, x);
    FileShape(package, cs, body, leaf, x);
    FileDefined(package, elements, leaf);
  }

  /** A file without anything to import: the package line, an empty line,
      the declarations and a newline. */
  lemma NothingImported(package: string, elements: Body, leaf: Statements.Leaf<Variable, Extra>)
    requires Renderable(package, elements, leaf)
    requires Kept(JavaImports.ElementsImports(elements), package) == {}
    ensures FileExtra(package, elements) == NewExtra()
    ensures var body: Tree := Document.Inner(Interleave(elements.elements, Document.Spacing));
            Statements.Defined(leaf, Document.VarsOf(body), NewExtra())
            && FileText(package, elements, leaf) == "package " + package + ";" + "\n\n" + Document.Render(body, leaf, NewExtra()) + "\n"
  {
    var receiver := JavaImports.ElementsImports(elements);
    assert PairOrder(Kept(receiver, package)) == [];
    FileTextShape(package, elements, leaf);
  }

  /** The import part of `format`: the classes the declarations report,
      less those of `java.lang` and of the file's own package, are imported
      in ascending order, the first class of each simple name getting a
      line; the lines are pushed as one element when any class is kept. */
  method ImportsInto(package: string, elements: Body, file: Body) returns (r: Body, locals: map<string, JavaTypes.ClassType>)
    ensures r.elements == file.elements + ImportBlock(package, elements)
    ensures locals == FileScan(package, elements).locals
  {
    r := file;
    locals := map[];
    var receiver := JavaImports.ElementsImports(elements);
    var kept := set t | t in receiver && t.package != "java.lang" && t.package != package :: (t.package, t.name);
    assert kept == Kept(receiver, package);
    if kept != {} {
      PairLessIsStrictTotal();
      var order := SortedList(kept, PairLess);
      var imported;
      locals, imported := ImportAll(order);
      r := ElementLists.Push(r, ElementLists.IntoElement(imported));
    } else {
      assert PairOrder(kept) == [];
    }
  }

  /** The tree `format` renders and the table of simple names it renders
      with: the package line, the import lines and the declarations. */
  method FileElement(package: string, elements: Body) returns (tree: Tree, locals: map<string, JavaTypes.ClassType>)
    ensures tree == FileTree(package, elements)
    ensures locals == FileScan(package, elements).locals
  {
    var file := ElementLists.New();
    var header := Statements.New();
    header := Statements.Push(header, Lit("package "));
    header := Statements.Push(header, Lit(package));
    header := Statements.Push(header, Lit(";"));
    assert header == PackageStatement(package);
    file := ElementLists.Push(file, Document.Push(header));
    file, locals := ImportsInto(package, elements, file);
    var content := ElementLists.Join(elements, Document.Spacing);
    file := ElementLists.Push(file, ElementLists.IntoElement(content));
    assert file.elements == FileParts(package, elements);
    var joined := ElementLists.Join(file, Document.Spacing);
    tree := ElementLists.IntoElement(joined);
  }

  class FileSpec {
    var package: string
    var elements: Body

    /** `FileSpec::new`: an empty file of the package. */
    constructor (package: string)
      ensures this.package == package && elements == ElementLists.New()
    {
      this.package := package;
      elements := ElementLists.New();
    }

    /** `push`: one more declaration. */
    method Push(element: Tree)
      modifies this
      ensures package == old(package)
      ensures elements == ElementLists.Push(old(elements), element)
    {
      elements := ElementLists.Push(elements, element);
    }

    /** `format`, returning what it writes to the sink. */
    method Format(leaf: Statements.Leaf<Variable, Extra>) returns (written: string)
      requires Renderable(package, elements, leaf)
      ensures written == FileText(package, elements, leaf)
    {
      var tree, locals := FileElement(package, elements);
      var extra := WithLocals(locals);
      FileDefined(package, elements, leaf);
      var fmt := new ElementFormatter();
      Document.Format(tree, fmt, leaf, extra);
      written := fmt.out + "\n";
    }

    /** `to_string`. */
    method ToString(leaf: Statements.Leaf<Variable, Extra>) returns (s: string)
      requires Renderable(package, elements, leaf)
      ensures s == FileText(package, elements, leaf)
    {
      s := Format(leaf);
    }
  }
}
