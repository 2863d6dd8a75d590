/** The names that the JavaScript and Python adapters put into statements.

    A name is imported from a module (perhaps under an alias), built in, or
    local.  Both adapters have the same three kinds and the same
    constructors; they differ in how an imported name without an alias is
    written.  Imported names are collected into ordered sets, so they carry
    the order Rust derives for `ImportedName`: by module, then name, then
    alias. */
module Names {
  import opened Wrappers
  import opened Orders

  datatype ImportedName = ImportedName(moduleName: string, name: string, alias: Option<string>)

  datatype Name =
    | Imported(imported: ImportedName)
    | BuiltIn(builtIn: string)
    | Local(local: string)

  /** `Name::imported`: a name imported from `module` under its own name. */
  function NewImported(moduleName: string, name: string): (r: ImportedName)
    ensures r.moduleName == moduleName && r.name == name && r.alias.None?
  {
    ImportedName(moduleName, name, None)
  }

  /** `Name::imported_alias`: a name reached through the module's alias. */
  function NewImportedAlias(moduleName: string, name: string, alias: string): (r: ImportedName)
    ensures r.moduleName == moduleName && r.name == name && r.alias == Some(alias)
    ensures r != NewImported(moduleName, name)
  {
    ImportedName(moduleName, name, Some(alias))
  }

  /** The identifier a name stands for, whatever its kind. */
  function Identifier(n: Name): string
  {
    match n
    case Imported(i) => i.name
    case BuiltIn(s) => s
    case Local(s) => s
  }

  /** `Name::format` of the JavaScript adapter: an aliased import is written
      `alias.name`, every other name as its bare identifier. */
  function JsFormat(n: Name): (r: string)
    ensures |Identifier(n)| <= |r| && r[|r| - |Identifier(n)|..] == Identifier(n)
    ensures r == Identifier(n) <==> !(n.Imported? && n.imported.alias.Some?)
  {
    match n
    case Imported(i) => if i.alias.Some? then i.alias.value + "." + i.name else i.name
    case BuiltIn(s) => s
    case Local(s) => s
  }

  /** `Name::format` of the Python adapter: every import is qualified, by
      its alias when it has one and by its module otherwise. */
  function PyFormat(n: Name): (r: string)
    ensures |Identifier(n)| <= |r| && r[|r| - |Identifier(n)|..] == Identifier(n)
    ensures r == Identifier(n) <==> !n.Imported?
  {
    match n
    case Imported(i) =>
      if i.alias.Some? then i.alias.value + "." + i.name else i.moduleName + "." + i.name
    case BuiltIn(s) => s
    case Local(s) => s
  }

  /** The two adapters write a name the same way except for an unaliased
      import, which Python qualifies with its module and JavaScript does not. */
  lemma FormatsDiffer(n: Name)
    ensures n.Imported? && n.imported.alias.None? ==> PyFormat(n) == n.imported.moduleName + "." + JsFormat(n)
    ensures !(n.Imported? && n.imported.alias.None?) ==> PyFormat(n) == JsFormat(n)
  {
  }

  /** The derived `Ord` on `ImportedName`: module, then name, then alias. */
  predicate ImportedLess(a: ImportedName, b: ImportedName)
  {
    || StrLess(a.moduleName, b.moduleName)
    || (a.moduleName == b.moduleName && StrLess(a.name, b.name))
    || (a.moduleName == b.moduleName && a.name == b.name && OptionLess(a.alias, b.alias))
  }

  lemma ImportedTransitive(a: ImportedName, b: ImportedName, c: ImportedName)
    requires ImportedLess(a, b) && ImportedLess(b, c)
    ensures ImportedLess(a, c)
  {
    OptionLessIsStrictTotal();
    if StrLess(a.moduleName, b.moduleName) && StrLess(b.moduleName, c.moduleName) {
      StrTransitive(a.moduleName, b.moduleName, c.moduleName);
    }
    if a.moduleName == b.moduleName == c.moduleName && StrLess(a.name, b.name) && StrLess(b.name, c.name) {
      StrTransitive(a.name, b.name, c.name);
    }
  }

  lemma ImportedConnected(a: ImportedName, b: ImportedName)
    requires a != b
    ensures ImportedLess(a, b) || ImportedLess(b, a)
  {
    OptionLessIsStrictTotal();
    if a.moduleName != b.moduleName {
      StrConnected(a.moduleName, b.moduleName);
    } else if a.name != b.name {
      StrConnected(a.name, b.name);
    }
  }

  /** The order is a strict total order, so ordered sets of imported names
      have one iteration order. */
  lemma ImportedLessIsStrictTotal()
    ensures StrictTotal(ImportedLess)
  {
    OptionLessIsStrictTotal();
    forall a ensures !ImportedLess(a, a) {
      StrIrreflexive(a.moduleName);
      StrIrreflexive(a.name);
    }
    forall a, b, c | ImportedLess(a, b) && ImportedLess(b, c) ensures ImportedLess(a, c) {
      ImportedTransitive(a, b, c);
    }
    forall a, b | a != b ensures ImportedLess(a, b) || ImportedLess(b, a) {
      ImportedConnected(a, b);
    }
  }
}
