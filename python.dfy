/** The Python decorator builder.

    A decorator holds a name and a list of argument statements.  It
    converts into one line, `@` followed by the name as the Python adapter
    writes it; the arguments are kept but not rendered by the conversion. */
module PyDecorators {
  import opened Formatter
  import Statements
  import Joins
  import opened Document
  import Names
  import Scripts

  type Tree = Element<Scripts.Variable>
  type Stmt = Statements.Statement<Scripts.Variable>

  const Py := Scripts.Python

  /** The line a decorator converts into: `@` and then the name. */
  function DecoratorLine(name: Names.Name): Stmt
  {
    Statements.Statement([Scripts.Literal("@"), Scripts.Name(name)])
  }

  class DecoratorSpec {
    var name: Names.Name
    var arguments: seq<Stmt>

    /** `DecoratorSpec::new`: the name and no arguments. */
    constructor (name: Names.Name)
      ensures this.name == name && arguments == []
    {
      this.name := name;
      arguments := [];
    }

    /** `From<BuiltInName>`: a decorator naming a built-in. */
    constructor FromBuiltIn(builtIn: string)
      ensures name == Names.BuiltIn(builtIn) && arguments == []
    {
      name := Names.BuiltIn(builtIn);
      arguments := [];
    }

    /** `From<ImportedName>`: a decorator naming an import. */
    constructor FromImported(imported: Names.ImportedName)
      ensures name == Names.Imported(imported) && arguments == []
    {
      name := Names.Imported(imported);
      arguments := [];
    }

    /** `push_argument`: appends one argument; the name is unchanged. */
    method PushArgument(argument: Stmt)
      modifies this
      ensures arguments == old(arguments) + [argument]
      ensures name == old(name)
    {
      arguments := arguments + [argument];
    }
  }

  /** `From<DecoratorSpec> for Element`: the statement is built push by
      push and becomes a `Push` element. */
  method DecoratorElement(d: DecoratorSpec) returns (e: Tree)
    ensures e == Push(DecoratorLine(d.name))
  {
    var decl := Statements.New();
    decl := Statements.Push(decl, Scripts.Literal("@"));
    decl := Statements.Push(decl, Scripts.Name(d.name));
    e := Push(decl);
  }

  /** A decorator renders as `@` and the Python text of its name, whatever
      its arguments, at the current level on a line of its own. */
  lemma DecoratorRender(s: FormatterState, name: Names.Name)
    ensures Statements.Defined(Scripts.Leaf(Py), VarsOf(Push(DecoratorLine(name))), ())
         && Exec(s, Document.Trace(Push(DecoratorLine(name)), Scripts.Leaf(Py), ()))
         == FormatterState(s.indent, false, s.out + (if s.lineEmpty then "" else "\n") + Padding(s.indent) + "@" + Names.PyFormat(name))
  {
    var st := DecoratorLine(name);
    Scripts.StatementText(Py, st);
    Scripts.PartsTextPair(Py, Scripts.Literal("@"), Scripts.Name(name));
    StatementEffect(s, st, Scripts.Leaf(Py), ());
    Joins.ConcatAssoc(s.out + (if s.lineEmpty then "" else "\n") + Padding(s.indent), "@", Names.PyFormat(name));
  }

  /** On a fresh formatter: `@module.name` for an unaliased import. */
  lemma ImportedDecoratorText(imported: Names.ImportedName)
    requires imported.alias.None?
    ensures Statements.Defined(Scripts.Leaf(Py), VarsOf(Push(DecoratorLine(Names.Imported(imported)))), ())
         && Render(Push(DecoratorLine(Names.Imported(imported))), Scripts.Leaf(Py), ())
         == "@" + imported.moduleName + "." + imported.name
  {
    DecoratorRender(Fresh, Names.Imported(imported));
  }
}
