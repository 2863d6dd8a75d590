/** The two statement helpers the Java builders share: the `implements`
    clause and the separator join of statements. */
module JavaCommon {
  import opened Formatter
  import opened Joins
  import Statements
  import Blocks
  import JavaTypes
  import opened JavaVariables

  /** The class types as type variables, in order. */
  function ClassVariables(types: seq<JavaTypes.ClassType>): (r: seq<Variable>)
    ensures |r| == |types| && forall i :: 0 <= i < |types| ==> r[i] == ClassVariable(types[i])
  {
    seq(|types|, i requires 0 <= i < |types| => ClassVariable(types[i]))
  }

  /** What `implements` appends: nothing for no types, otherwise
      ` implements ` and the types separated by `, `. */
  function ImplementsParts(types: seq<JavaTypes.ClassType>): seq<Variable>
  {
    if types == [] then [] else [Literal(" implements ")] + Interleave(ClassVariables(types), Literal(", "))
  }

  /** `implements`: extends the statement with the clause, the first type
      by itself and each further one after `, `. */
  method Implements(types: seq<JavaTypes.ClassType>, dest: Stmt) returns (r: Stmt)
    ensures r.parts == dest.parts + ImplementsParts(types)
  {
    r := dest;
    if |types| > 0 {
      r := Statements.Push(r, Literal(" implements "));
      r := Statements.Push(r, ClassVariable(types[0]));
      assert ClassVariables(types[..1]) == [ClassVariable(types[0])];
      var i := 1;
      while i < |types|
        invariant 1 <= i <= |types|
        invariant r.parts == dest.parts + ([Literal(" implements ")] + Interleave(ClassVariables(types[..i]), Literal(", ")))
      {
        var done := Interleave(ClassVariables(types[..i]), Literal(", "));
        assert ClassVariables(types[..i + 1]) == ClassVariables(types[..i]) + [ClassVariable(types[i])];
        InterleaveSnoc(ClassVariables(types[..i]), ClassVariable(types[i]), Literal(", "));
        r := Statements.Push(Statements.Push(r, Literal(", ")), ClassVariable(types[i]));
        assert r.parts == dest.parts + ([Literal(" implements ")] + done) + [Literal(", "), ClassVariable(types[i])];
        i := i + 1;
      }
      assert types[..i] == types;
    }
  }

  /** The clause leaves the statement alone without types, and otherwise
      is `2n` parts: the keyword, each type at an odd position and `, `
      between neighbours. */
  lemma ImplementsShape(types: seq<JavaTypes.ClassType>)
    ensures types == [] <==> ImplementsParts(types) == []
    ensures types != [] ==> |ImplementsParts(types)| == 2 * |types|
    ensures types != [] ==> ImplementsParts(types)[0] == Literal(" implements ")
    ensures forall k :: 0 <= k < |types| ==> ImplementsParts(types)[2 * k + 1] == ClassVariable(types[k])
    ensures forall k :: 0 <= k < |types| - 1 ==> ImplementsParts(types)[2 * k + 2] == Literal(", ")
  {
    var vs := ClassVariables(types);
    forall k | 0 <= k < |types| ensures ImplementsParts(types)[2 * k + 1] == ClassVariable(types[k]) {
      InterleaveItem(vs, Literal(", "), k);
    }
    forall k | 0 <= k < |types| - 1 ensures ImplementsParts(types)[2 * k + 2] == Literal(", ") {
      InterleaveSeparator(vs, Literal(", "), k);
    }
  }

  /** What the clause writes, given what each type is written as. */
  function ImplementsWords(texts: seq<string>): seq<string>
  {
    if texts == [] then [] else [" implements "] + Interleave(texts, ", ")
  }

  /** With a leaf that writes literal text as itself and each type as a
      known text, the clause writes ` implements ` and those texts joined
      by `, `, or nothing. */
  lemma ImplementsText<X>(types: seq<JavaTypes.ClassType>, texts: seq<string>, leaf: Statements.Leaf<Variable, X>, x: X)
    requires Blocks.WritesText(leaf, Lit, x)
    requires Blocks.WrittenAs(leaf, ClassVariables(types), texts, x)
    ensures Blocks.WrittenAs(leaf, ImplementsParts(types), ImplementsWords(texts), x)
    ensures Flatten(ImplementsWords(texts)) == if types == [] then "" else " implements " + JoinStrings(texts, ", ")
  {
    if types != [] {
      Blocks.WrittenAsText(leaf, [", "], Lit, x);
      Blocks.WrittenAsText(leaf, [" implements "], Lit, x);
      assert Blocks.TextParts([", "], Lit) == [Literal(", ")];
      assert Blocks.TextParts([" implements "], Lit) == [Literal(" implements ")];
      Blocks.WrittenAsInterleave(leaf, ClassVariables(types), texts, Literal(", "), ", ", x);
      Blocks.WrittenAsAppend(leaf, [Literal(" implements ")], [" implements "], Interleave(ClassVariables(types), Literal(", ")), Interleave(texts, ", "), x);
      FlattenAppend([" implements "], Interleave(texts, ", "));
      FlattenSmall(" implements ", "", "");
    }
  }

  /** What `join_statements` builds: each item as a statement variable, the
      separator between neighbours. */
  function JoinedParts(items: seq<Stmt>, separator: Variable): seq<Variable>
  {
    Interleave(StatementVariables(items), separator)
  }

  function StatementVariables(items: seq<Stmt>): (r: seq<Variable>)
    ensures |r| == |items| && forall i :: 0 <= i < |items| ==> r[i] == Statement(items[i])
  {
    seq(|items|, i requires 0 <= i < |items| => Statement(items[i]))
  }

  /** `join_statements`: an empty statement for no items, otherwise the
      first item and then, for each further one, the separator and it. */
  method JoinStatements(items: seq<Stmt>, separator: Variable) returns (r: Stmt)
    ensures r.parts == JoinedParts(items, separator)
  {
    if |items| == 0 {
      return Statements.New();
    }
    r := Statements.New();
    r := Statements.Push(r, Statement(items[0]));
    assert StatementVariables(items[..1]) == [Statement(items[0])];
    var i := 1;
    while i < |items|
      invariant 1 <= i <= |items|
      invariant r.parts == Interleave(StatementVariables(items[..i]), separator)
    {
      assert StatementVariables(items[..i + 1]) == StatementVariables(items[..i]) + [Statement(items[i])];
      InterleaveSnoc(StatementVariables(items[..i]), Statement(items[i]), separator);
      r := Statements.Push(Statements.Push(r, separator), Statement(items[i]));
      i := i + 1;
    }
    assert items[..i] == items;
  }

  /** The join is empty for no items and has `2n - 1` parts for `n`: the
      items in order at the even positions, the separator at the odd ones. */
  lemma JoinedShape(items: seq<Stmt>, separator: Variable)
    ensures items == [] <==> JoinedParts(items, separator) == []
    ensures items != [] ==> |JoinedParts(items, separator)| == 2 * |items| - 1
    ensures forall k :: 0 <= k < |items| ==> JoinedParts(items, separator)[2 * k] == Statement(items[k])
    ensures forall k :: 0 <= k < |items| - 1 ==> JoinedParts(items, separator)[2 * k + 1] == separator
  {
    var vs := StatementVariables(items);
    forall k | 0 <= k < |items| ensures JoinedParts(items, separator)[2 * k] == Statement(items[k]) {
      InterleaveItem(vs, separator, k);
    }
    forall k | 0 <= k < |items| - 1 ensures JoinedParts(items, separator)[2 * k + 1] == separator {
      InterleaveSeparator(vs, separator, k);
    }
  }
}
