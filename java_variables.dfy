/** The variables of the Java adapter, the extra state its renderer
    carries, and the conversions the builders use.

    A Java statement holds literal text, types, strings to be quoted,
    nested statements, whole trees and line breaks.  How each of them is
    formatted is not part of this model; render lemmas ask of the leaf only
    that it writes a literal's text (`Blocks.WritesText` with `Lit`) and
    that the variables of a declaration's body keep the indentation level,
    as a tree variable formatted as its own tree does.  The extra state is
    the table of simple names already taken by imports. */
module JavaVariables {
  import Formatter
  import Statements
  import Document
  import JavaTypes
  import JavaModifiers

  datatype Variable =
    | Literal(text: string)
    | Type(ty: JavaTypes.Type)
    | String(text: string)
    | Statement(statement: Statements.Statement<Variable>)
    | Element(element: Document.Element<Variable>)
    | Spacing

  type Stmt = Statements.Statement<Variable>
  type Tree = Document.Element<Variable>

  /** `From<&str>` and `From<String> for Variable`: literal text. */
  function Lit(t: string): (r: Variable)
    ensures r.Literal? && r.text == t
  {
    Literal(t)
  }

  /** `From<ClassType> for Variable`: a class type is a type variable. */
  function ClassVariable(c: JavaTypes.ClassType): (r: Variable)
    ensures r.Type? && r.ty.Class? && r.ty.classType == c
  {
    Type(JavaTypes.Class(c))
  }

  /** `From<Modifiers> for Variable`: the formatted modifiers as literal
      text, which is empty exactly when the set is. */
  function ModifiersVariable(ms: JavaModifiers.Modifiers): (r: Variable)
    ensures r.Literal? && r.text == JavaModifiers.ModifiersText(ms)
    ensures r.text == "" <==> JavaModifiers.IsEmpty(ms)
  {
    JavaModifiers.TextEmptyIff(ms);
    Literal(JavaModifiers.ModifiersText(ms))
  }

  /** The conversion on the method side: formats the set, then wraps it. */
  method FromModifiers(ms: JavaModifiers.Modifiers) returns (v: Variable)
    ensures v == ModifiersVariable(ms)
  {
    var text := JavaModifiers.Format(ms);
    v := Literal(text);
  }

  /** `From<Variable> for Statement`: a statement of one part. */
  function Single(v: Variable): (r: Stmt)
    ensures r.parts == [v]
  {
    Statements.Statement([v])
  }

  /** `Extra`: the simple names that are taken, each by the raw class type
      that took it. */
  datatype Extra = Extra(locals: map<string, JavaTypes.ClassType>)

  /** `Extra::new`, and `Default` which is the same: no name is taken. */
  function NewExtra(): (r: Extra)
    ensures r.locals == map[]
  {
    Extra(map[])
  }

  /** `Extra::with_locals`: the table as given. */
  function WithLocals(locals: map<string, JavaTypes.ClassType>): (r: Extra)
    ensures r.locals == locals
  {
    Extra(locals)
  }

  /** `Extra::absolute_import`: the simple name is taken, and by another
      class than the raw form of `c`. */
  function AbsoluteImport(extra: Extra, name: string, c: JavaTypes.ClassType): bool
  {
    if name in extra.locals then JavaTypes.ToRaw(c) != extra.locals[name] else false
  }

  /** A name nobody took is never written absolutely; a name taken by the
      raw form of a class is not written absolutely for that class, whatever
      its arguments, and is for every class with another raw form. */
  lemma AbsoluteImportCases(locals: map<string, JavaTypes.ClassType>, name: string, c: JavaTypes.ClassType, arguments: seq<JavaTypes.Type>)
    ensures name !in locals ==> !AbsoluteImport(WithLocals(locals), name, c)
    ensures !AbsoluteImport(NewExtra(), name, c)
    ensures name in locals && locals[name] == JavaTypes.ToRaw(c)
            ==> !AbsoluteImport(WithLocals(locals), name, JavaTypes.WithArguments(c, arguments))
    ensures name in locals && locals[name] != JavaTypes.ToRaw(c)
            ==> AbsoluteImport(WithLocals(locals), name, c)
  {
    JavaTypes.RawForgetsArguments(c, arguments, "");
  }

  /** `Variable::Element` formats its tree: a leaf that does so keeps the
      indentation level for it whenever the tree's own variables keep it. */
  lemma ElementKeepsIndent<X>(e: Tree, leaf: Statements.Leaf<Variable, X>, x: X)
    requires Statements.Defined(leaf, {Element(e)}, x)
    requires Statements.Defined(leaf, Document.VarsOf(e), x) && Statements.KeepsIndent(leaf, Document.VarsOf(e), x)
    requires forall d: nat :: leaf(Element(e), d, x) == Document.Trace(e, leaf, x)
    ensures Statements.KeepsIndent(leaf, {Element(e)}, x)
  {
    forall v, d: nat, t: Formatter.FormatterState | v in {Element(e)} ensures Formatter.Exec(t, leaf(v, d, x)).indent == t.indent {
      Document.TraceKeepsIndent(e, leaf, x, t);
    }
  }
}
