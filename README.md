# codeviz in Dafny

codeviz is a Rust library that builds source files for Java, JavaScript,
Python and Rust from a small, language-neutral document model.  Programs
describe classes, functions and statements through builder records
(`ClassSpec`, `FunctionSpec`, `EnumSpec`, ...), convert them into `Element`
trees, and render the trees to text through an indent-aware formatter.  A
file builder walks the finished tree to collect the names it refers to,
turns them into an import block, and writes the file.

This project models that core and proves what it promises:

- **The document model** (`Document`, `Statements`, `ElementLists`): the
  six-way `Element` tree, statements as lists of variables, the builder list
  and its separator join.  Rendering is modelled twice: `Document.Trace` is
  the list of formatter commands a tree produces, and `Document.Format` is
  the recursive walk that drives an `ElementFormatter` object; the method is
  proved to leave the formatter in the state the trace leads to.
- **The formatter** (`Formatter`): its source is not part of this model, so
  it is a small class with three fields (indent level, whether the current
  line is still empty, the text written so far) whose methods follow the
  behaviour the library's expected outputs require: text on an empty line is
  preceded by two spaces per indent level, `new_line_unless_empty` breaks
  only a line with content, `new_line` always breaks, and `unindent` stops
  at level 0.  `Formatter.Exec` is the same behaviour as a function.
- **Leaves**: the JavaScript and Python variables and names (`Scripts`,
  `Names`), the string quoting table (`Quoting`), Java types, modifiers and
  variables (`JavaTypes`, `JavaModifiers`, `JavaVariables`).
- **Import collection**: the JavaScript and Java visitors as functions from
  a tree to the set of names it reports (`JsImports`, `JavaImports`).
- **File assembly**: the JavaScript, Java and Rust file builders (`JsFile`,
  `JavaFile`, `RustFile`): grouping, filtering, ordering and deduplicating
  the collected names into import lines, then the Spacing-joined body and
  the final newline.
- **Builders**: the Java, JavaScript, Python and Rust builder records as
  classes whose methods append to their own fields, each converted to a tree
  by a method that is proved to build a fixed tree function, with lemmas
  that render that tree.

Each rendering property is stated for an arbitrary leaf formatter
(`Statements.Leaf`, a partial function from variable, depth and extra value
to formatter commands); the Java builders are additionally rendered with a
leaf that writes each type as a given text.  The library's expected outputs
(`public class Foo {\n}`, `public interface Foo {\n}`,
`public enum Foo {\n  ;\n}` and the JavaScript file with one import) are
proved as lemmas about the model.

Ordered collections (`BTreeSet`, `BTreeMap`) are sets and maps together
with a proved strict total order (`Orders`); their iteration order is the
unique sorted sequence of their elements (`Orders.SortedSeq`).

## Model

| member | source | states |
|---|---|---|
| Formatter.Padding | common/src/element.rs:34 | the indentation written before the first text of a line is exactly two spaces per level |
| Formatter.ElementFormatter.constructor | common/src/element.rs:102 | a new formatter is at level 0, on an empty line, with nothing written |
| Formatter.ElementFormatter.WriteStr | common/src/element.rs:34 | writing text keeps the level; non-empty text on an empty line is preceded by the indentation and leaves the line non-empty; empty text changes nothing |
| Formatter.ElementFormatter.NewLineUnlessEmpty | common/src/element.rs:26 | breaks the line only when it has content; afterwards the line is empty and the level unchanged |
| Formatter.ElementFormatter.NewLine | common/src/element.rs:50 | always appends one line break and leaves an empty line |
| Formatter.ElementFormatter.Indent | common/src/element.rs:44 | raises the level by one and writes nothing |
| Formatter.ElementFormatter.Unindent | common/src/element.rs:46 | lowers the level by one but never below 0, and writes nothing |
| Formatter.ElementFormatter.Run | common/src/element.rs:20-55 | running a command list leaves the formatter in the state `Exec` gives for that list |
| Formatter.ExecAppend | common/src/element.rs:37-39 | running two command lists in turn is running their concatenation |
| Formatter.ExecExtends | common/src/element.rs:20-55 | formatting only appends: the text written before is a prefix of the text after |
| Formatter.ExecOut | common/src/element.rs:20-55 | what a command list does is independent of the text already written: it appends the same suffix to any prefix |
| Formatter.NewLineUnlessEmptyEffect | common/src/element.rs:26 | the conditional break is a no-op on an empty line, a single `\n` otherwise, and idempotent |
| Formatter.IndentEffect | common/src/element.rs:44-46 | `indent` followed by `unindent` restores the state; `unindent` floors at 0; neither writes |
| Formatter.WritesEffect | common/src/statement.rs:48-50 | a list of writes keeps the level, and appends its text after the indentation when the line was empty and directly otherwise |
| Formatter.TextAppend | common/src/statement.rs:48-50 | the text of two write lists in turn is the concatenation of their texts |
| Statements.New | common/src/statement.rs:14-16 | a new statement has no parts |
| Statements.Push | common/src/statement.rs:18-22 | appends exactly one part at the end; the earlier parts are unchanged |
| Statements.FromString | common/src/statement.rs:88-94 | a string converts to the statement whose only part is that string |
| Statements.FromSeq | common/src/statement.rs:65-78 | the statement holds the converted items in their order |
| Statements.Join | common/src/statement.rs:24-43 | the loop builds the parts interleaved with the separator |
| Statements.JoinShape | common/src/statement.rs:29-42 | the join of nothing is empty, of one part is that part, and of n parts has 2n−1 parts: the originals in order at even positions, the separator at every odd one |
| Statements.Format | common/src/statement.rs:45-53 | formats every part in order with the same depth and extra value: the formatter ends in the state of the concatenated part traces |
| Statements.TraceAppend | common/src/statement.rs:48-50 | formatting two lists of parts in turn is formatting their concatenation |
| Statements.TraceIndent | common/src/statement.rs:45-53 | a statement whose parts each keep the indentation level keeps it |
| Statements.PushTrace | common/src/statement.rs:18-22 | a pushed part is formatted after all earlier parts |
| Document.Format | common/src/element.rs:20-55 | the recursive walk leaves the formatter in the state its command trace leads to: Push breaks unless empty and formats its statement at depth 0, Concat formats it in place, Literal breaks unless empty and writes, Inner formats its children in order, Nested breaks, indents, formats and unindents, Spacing breaks unless empty and then always breaks |
| Document.ToString | common/src/element.rs:95-106 | renders on a fresh formatter with the default extra value and adds no trailing newline |
| Document.FromStr | common/src/element.rs:68-75 | text converts to a `Literal` of that text |
| Document.FromStrings | common/src/element.rs:86-93 | a list of strings converts to an `Inner` of one `Literal` per string, in order, with no variables |
| Document.InnerTraceAppend | common/src/element.rs:36-40 | formatting two child lists in turn is formatting their concatenation |
| Document.TraceKeepsIndent | common/src/element.rs:41-47 | formatting any tree whose leaves keep the indentation level returns the formatter to the level it started at |
| Document.LiteralEffect | common/src/element.rs:32-35 | a literal starts a new line unless the current one is empty, then writes the indentation and its text |
| Document.SpacingEffect | common/src/element.rs:48-51 | Spacing appends one `\n` on an empty line and two otherwise, and leaves an empty line |
| Document.StatementEffect | common/src/element.rs:25-31 | Push starts a new line unless the current one is empty; Concat writes on the current line, with indentation only if it is empty |
| Document.NestedEffect | common/src/element.rs:41-47 | Nested formats its child one level deeper on a fresh line and restores the level afterwards |
| Document.BlockEffect | common/src/element.rs:25-47 | an opening statement, a nested body and a closing literal render as the opening line, the body one level deeper and the closing line at the starting level |
| Document.SpacingBetween | common/src/element.rs:48-51 | one Spacing between two literals gives exactly one blank line |
| Document.TwoSpacings | common/src/element.rs:48-51 | two Spacings in a row give two blank lines, not one |
| Document.LeadingSpacing | common/src/element.rs:48-51 | a Spacing at the start of a document writes a leading empty line |
| Document.NestedIndents | common/src/element.rs:41-47 | a nested literal between two literals is indented by two spaces and the next literal is not |
| Document.LinesRender | common/src/element.rs:86-93 | a list of non-empty strings renders as those strings joined by `\n` |
| ElementLists.New | common/src/elements.rs:15-17 | a new list is empty |
| ElementLists.Push | common/src/elements.rs:19-24 | appends one element at the end; the list is then non-empty and the earlier elements are unchanged |
| ElementLists.PushNested | common/src/elements.rs:26-33 | appends `Nested` of the element at the end |
| ElementLists.IntoElement | common/src/element.rs:77-84 | a list converts to an `Inner` of the same elements |
| ElementLists.Join | common/src/elements.rs:39-61 | the loop builds the elements interleaved with the separator |
| ElementLists.JoinShape | common/src/elements.rs:45-60 | the join of at most one element is the list itself; of n ≥ 1 it has 2n−1 entries, the originals in order at even positions and the separator between each adjacent pair |
| ElementLists.SpacedLines | common/src/elements.rs:39-61 | non-empty lines joined by Spacing render as the lines separated by one blank line each |
| Orders.SortedList | js/src/file_spec.rs:59 | iterating an ordered set yields its elements in ascending order, each once |
| Orders.SortedUnique | js/src/file_spec.rs:59 | two ascending sequences with the same elements are equal, so the iteration order is determined by the set |
| Orders.StrLessIsStrictTotal | src/js/name.rs:48 | the lexicographic order on strings is irreflexive, transitive and total |
| Orders.KeyLessIsStrictTotal | src/js/name.rs:48-53 | the lexicographic order on tuples of strings is a strict total order |
| Orders.PairLessIsStrictTotal | js/src/file_spec.rs:36 | the order on (string, string) pairs is a strict total order |
| Orders.PairOrder | java/src/file_spec.rs:45-55 | an ordered set of (package, name) pairs is iterated in ascending order, each member exactly once |
| Orders.OptionLessIsStrictTotal | src/rust/file_spec.rs:31 | on optional strings, `None` comes first and `Some` values follow in string order; a strict total order |
| Names.NewImported | src/js/name.rs:9-15 | an imported name keeps module and name and has no alias |
| Names.NewImportedAlias | src/js/name.rs:17-23 | an aliased imported name keeps module, name and alias, and differs from the unaliased one |
| Names.JsFormat | src/js/name.rs:33-45 | ends in the identifier; it is the bare identifier exactly when the name is not an aliased import, which is written `alias.name` |
| Names.PyFormat | python/src/name.rs:36-53 | ends in the identifier; it is the bare identifier exactly for built-in and local names, an import being qualified by its alias or module |
| Names.FormatsDiffer | python/src/name.rs:44-46 | the two dialects differ only on unaliased imports, which Python qualifies with the module and JavaScript does not |
| Names.ImportedLessIsStrictTotal | python/src/name.rs:56-61 | imported names are ordered by (module, name, alias), a strict total order |
| Quoting.EscapeChar | python/src/variable.rs:78-87 | the eight special characters become a backslash and one letter; every other character is copied |
| Quoting.Escaped | python/src/variable.rs:77-89 | escaping never shortens the text and leaves text without special characters unchanged |
| Quoting.Quoted | python/src/variable.rs:71-94 | the result starts and ends with `"`, is at least two longer than the input, and is `""` for the empty input |
| Quoting.UnescapeEscaped | python/src/variable.rs:77-89 | escaping is undone by reading the escapes back, so no two texts escape alike |
| Quoting.QuotedRoundTrip | python/src/variable.rs:71-94 | stripping the quotes and reading the escapes back gives the original text |
| Quoting.QuotedInjective | python/src/variable.rs:71-94 | different texts quote differently |
| Quoting.QuoteString | python/src/variable.rs:71-94 | the loop writes the opening quote, each character's escape and the closing quote, so it writes exactly the quoted text |
| Quoting.QuoteCmdsText | python/src/variable.rs:71-94 | the writes of `quote_string` spell the quoted text |
| Scripts.Format | python/src/variable.rs:20-41 | a literal is written verbatim, a string quoted, a statement with the same depth and extra value, a name through its dialect's format |
| Scripts.CmdsWrite | python/src/variable.rs:24-37 | a variable of either dialect only writes, and writes its text |
| Scripts.PartsTextAppend | common/src/statement.rs:48-50 | the text of a statement is the concatenation of the texts of its parts |
| Scripts.PartsTextInterleave | common/src/statement.rs:24-43 | the text of a joined statement is the texts of the parts joined by the separator's text |
| Scripts.StatementText | python/src/variable.rs:28-30 | every statement of script variables is formatted without failing and writes the text of its parts |
| JsImports.AllImportsItems | js/src/imports.rs:6-14 | `import_all` reports a name exactly when one of the items reports it |
| JsImports.JoinKeepsImports | js/src/imports.rs:91-98 | joining with a separator that reports nothing, such as Spacing, reports the same names |
| JsImports.AllImportsAppend | js/src/imports.rs:6-14 | visiting two lists in turn reports the names of both |
| JsImports.ImportsAreMentioned | js/src/imports.rs:61-79 | every reported name is a name the tree renders; without `Concat` nodes, which are not visited, the visitor reports exactly the imported names the tree renders |
| JsSpecs.ArgumentImports | js/src/imports.rs:81-89 | the joined argument list reports exactly the names of the arguments |
| JsSpecs.FunctionImports | js/src/imports.rs:81-89 | a function's tree reports the names of its arguments and of its body, as the `FunctionSpec` visitor does |
| JsSpecs.FunctionSpec.Imports | js/src/imports.rs:81-89 | the names a function reports are those of the tree it converts to |
| JsSpecs.BlockImports | js/src/imports.rs:61-79 | an opening statement with a nested body reports the names of both |
| JsFile.ModuleToPathShape | js/src/file_spec.rs:24-27 | every `.` becomes `/` and `.js` is appended; the result is three longer |
| JsFile.JoinUndoesSplit | js/src/file_spec.rs:25 | splitting a module path at dots and joining with dots gives the path back |
| JsFile.Collect | js/src/file_spec.rs:38-51 | the loop maps each module of an unaliased name to the names selected from it in visit order, and collects the (module, alias) pairs of aliased names |
| JsFile.SelectedMembers | js/src/file_spec.rs:42-49 | a name is selected from a module exactly when that unaliased import was reported |
| JsFile.SelectedAscending | js/src/file_spec.rs:38-49 | visiting the names in ascending order selects each module's names in ascending order |
| JsFile.SelectedIsSorted | js/src/file_spec.rs:38-49 | the names selected from a module are its reported names in ascending order, each once |
| JsFile.SelectiveStatements | js/src/file_spec.rs:59-71 | one `import {…} from "path";` line per module, in the given module order |
| JsFile.WildcardStatements | js/src/file_spec.rs:73-83 | one `import * as alias from "path";` line per pair, after the lines already built |
| JsFile.Imports | js/src/file_spec.rs:29-86 | builds the import block: nothing when no name is reported, otherwise the selective lines by ascending module, then the wildcard lines by ascending pair |
| JsFile.ImportBlockPresent | js/src/file_spec.rs:53-55 | there is an import block exactly when some name is reported |
| JsFile.ImportBlockCovers | js/src/file_spec.rs:38-83 | every reported name is imported: an unaliased one through its module's selective line, an aliased one through its wildcard line |
| JsFile.SelectiveImportText | js/src/file_spec.rs:60-70 | a selective line reads `import {n1, n2} from "path";` with the names joined by `, ` and the path quoted |
| JsFile.WildcardImportText | js/src/file_spec.rs:74-82 | a wildcard line reads `import * as alias from "path";` |
| JsFile.FileSpec.constructor | js/src/file_spec.rs:13-15 | a new file has no elements |
| JsFile.FileSpec.Push | js/src/file_spec.rs:17-22 | appends to the elements only |
| JsFile.FileSpec.Format | js/src/file_spec.rs:88-107 | writes the import block when present, one blank line, the elements separated by blank lines, then exactly one `\n` |
| JsFile.FileSpec.ToString | js/src/file_spec.rs:116-122 | the string is what `format` writes |
| JsFile.FileTreeWithImports | js/src/file_spec.rs:92-100 | with imports, the file is the import block, Spacing, and the Spacing-joined elements |
| JsFile.ExampleFile | src/lib.rs:109-123 | a file holding function `foo` returning the imported `hello` renders as `import {hello} from "foo.js";`, a blank line, the function and one final newline |
| JsSpecs.JoinArguments | js/src/function_spec.rs:41-47 | the arguments become one statement variable holding them joined by `, ` |
| JsSpecs.ArgumentsTextSmall | js/src/function_spec.rs:41-47 | no arguments write nothing and one argument writes just itself |
| JsSpecs.Block | js/src/function_spec.rs:50-55 | builds the opening statement, the Spacing-joined body nested, and `}` |
| JsSpecs.BlockRender | js/src/function_spec.rs:50-55 | renders the opening line, the body one level deeper, and `}` at the starting level |
| JsSpecs.FunctionSpec.constructor | js/src/function_spec.rs:11-17 | a new function has its name, no arguments and no body |
| JsSpecs.FunctionSpec.PushArgument | js/src/function_spec.rs:19-24 | appends to the arguments only |
| JsSpecs.FunctionSpec.Push | js/src/function_spec.rs:26-31 | appends to the body only |
| JsSpecs.FunctionElement | js/src/function_spec.rs:34-57 | converts a function to its opening statement, nested Spacing-joined body and `}` |
| JsSpecs.FunctionOpenText | js/src/function_spec.rs:36-48 | the opening line is `function name(` , the arguments joined by `, `, and `) {` |
| JsSpecs.EmptyFunctionRender | js/src/function_spec.rs:34-57 | a function without body renders as its opening line and `}`; without arguments the line is `function name() {` |
| JsSpecs.ClassSpec.constructor | js/src/class_spec.rs:12-19 | a new class is not exported and has no constructors and no elements |
| JsSpecs.ClassSpec.Export | js/src/class_spec.rs:21-23 | marks the class exported; nothing else changes |
| JsSpecs.ClassSpec.PushConstructor | js/src/class_spec.rs:25-30 | appends to the constructors only |
| JsSpecs.ClassSpec.Push | js/src/class_spec.rs:32-37 | appends to the elements only |
| JsSpecs.ClassBody | js/src/class_spec.rs:52-60 | the body has one section per non-empty list, constructors first |
| JsSpecs.ClassElement | js/src/class_spec.rs:40-69 | converts a class to its opening statement, its nested Spacing-joined sections and `}` |
| JsSpecs.ClassOpenText | js/src/class_spec.rs:42-50 | the opening line is `export ` only for an exported class, then `class name {` |
| JsSpecs.ClassSections | js/src/class_spec.rs:54-64 | with both lists non-empty, the body is the Spacing-joined constructors, Spacing, and the Spacing-joined elements |
| JsSpecs.EmptyClassRender | js/src/class_spec.rs:40-69 | a class without members renders as its opening line and `}` |
| JsSpecs.MethodSpec.constructor | js/src/method_spec.rs:12-19 | a new method is not static and has no arguments and no body |
| JsSpecs.MethodSpec.WithStatic | js/src/method_spec.rs:21-28 | `with_static` gives the same method marked static |
| JsSpecs.MethodSpec.PushArgument | js/src/method_spec.rs:30-34 | appends to the arguments only |
| JsSpecs.MethodSpec.Push | js/src/method_spec.rs:36-40 | appends to the body only |
| JsSpecs.MethodElement | js/src/method_spec.rs:43-71 | converts a method to its opening statement, nested Spacing-joined body and `}` |
| JsSpecs.MethodOpenText | js/src/method_spec.rs:45-62 | the opening line is `static ` only for a static method, then `name(`, the arguments joined by `, `, and `) {` |
| JsSpecs.EmptyMethodRender | js/src/method_spec.rs:43-71 | a method without body renders as its opening line and `}` |
| JsSpecs.ConstructorSpec.constructor | js/src/constructor_spec.rs:10-15 | a new constructor has no arguments and no body |
| JsSpecs.ConstructorSpec.PushArgument | js/src/constructor_spec.rs:17-22 | appends to the arguments only |
| JsSpecs.ConstructorSpec.Push | js/src/constructor_spec.rs:24-29 | appends to the body only |
| JsSpecs.ConstructorElement | js/src/constructor_spec.rs:32-56 | converts a constructor to its opening statement, nested Spacing-joined body and `}` |
| JsSpecs.ConstructorOpenText | js/src/constructor_spec.rs:34-46 | the opening line is `constructor(`, the arguments joined by `, `, and `) {` |
| JsSpecs.EmptyConstructorRender | js/src/constructor_spec.rs:32-56 | a constructor without body renders as its opening line and `}` |
| PyDecorators.DecoratorSpec.constructor | python/src/decorator_spec.rs:10-18 | a new decorator has its name and no arguments |
| PyDecorators.DecoratorSpec.FromBuiltIn | python/src/decorator_spec.rs:37-41 | a built-in name converts to a decorator of that name |
| PyDecorators.DecoratorSpec.FromImported | python/src/decorator_spec.rs:43-47 | an imported name converts to a decorator of that name |
| PyDecorators.DecoratorSpec.PushArgument | python/src/decorator_spec.rs:20-25 | appends to the arguments only |
| PyDecorators.DecoratorElement | python/src/decorator_spec.rs:49-58 | converts a decorator to one Push of `@` and its name; the arguments are not part of it |
| PyDecorators.DecoratorRender | python/src/decorator_spec.rs:49-58 | a decorator renders on its own line as `@` followed by the Python form of its name |
| PyDecorators.ImportedDecoratorText | python/src/decorator_spec.rs:49-58 | an unaliased imported decorator renders as `@module.name` |
| RustSpecs.HeaderText | rust/src/enum_spec.rs:44-52 | the declaration line is `pub ` only when public, then the keyword, the name and ` {` |
| RustSpecs.Item | rust/src/enum_spec.rs:38-64 | builds the attributes, the declaration, the Spacing-joined body nested only when there are elements, and `}` last |
| RustSpecs.ItemRender | rust/src/enum_spec.rs:38-64 | renders the attributes, then the declaration line, the body one level deeper and `}` at the attributes' level |
| RustSpecs.EmptyItemRender | rust/src/enum_spec.rs:56-60 | an item without attributes and elements renders as its declaration line and `}` |
| RustSpecs.EnumSpec.constructor | rust/src/enum_spec.rs:12-19 | a new enum is not public and has no attributes and no elements |
| RustSpecs.EnumSpec.Public | rust/src/enum_spec.rs:21-23 | marks the enum public; nothing else changes |
| RustSpecs.EnumSpec.PushAttribute | rust/src/enum_spec.rs:25-29 | appends to the attributes only |
| RustSpecs.EnumSpec.Push | rust/src/enum_spec.rs:31-35 | appends to the elements only |
| RustSpecs.EnumElement | rust/src/enum_spec.rs:38-64 | converts an enum to its item tree with the keyword `enum ` |
| RustSpecs.StructSpec.constructor | src/rust/struct_spec.rs:15-22 | a new struct is not public and has no attributes and no elements |
| RustSpecs.StructSpec.Public | src/rust/struct_spec.rs:24-26 | marks the struct public; nothing else changes |
| RustSpecs.StructSpec.PushAttribute | src/rust/struct_spec.rs:28-32 | appends to the attributes only |
| RustSpecs.StructSpec.Push | src/rust/struct_spec.rs:34-38 | appends to the elements only |
| RustSpecs.StructElement | src/rust/struct_spec.rs:41-67 | converts a struct to its item tree with the keyword `struct ` |
| RustFile.UseLessIsStrictTotal | src/rust/file_spec.rs:31 | (module, alias) pairs are ordered by module, then alias with `None` first; a strict total order |
| RustFile.UseText | src/rust/file_spec.rs:41-51 | a use line reads `use module;` or `use module as alias;` |
| RustFile.UseLine | src/rust/file_spec.rs:41-51 | builds the use statement of one pair |
| RustFile.Imports | src/rust/file_spec.rs:26-57 | builds the import block: nothing without names, otherwise one use line per distinct pair in ascending order |
| RustFile.ImportBlockPresent | src/rust/file_spec.rs:34-36 | there is an import block exactly when some name is reported |
| RustFile.ImportBlockCovers | src/rust/file_spec.rs:31-54 | the lines are in ascending pair order, every reported name's pair has a line, and every line comes from a reported name |
| RustFile.NamesDropped | src/rust/file_spec.rs:31-32 | another name from the same module and alias changes nothing: only the pairs matter |
| RustFile.ImportsFirst | src/rust/file_spec.rs:62-70 | with imports, the file is the import block, Spacing and the Spacing-joined elements |
| RustFile.NoImportsText | src/rust/file_spec.rs:62-74 | without imports, the file is the Spacing-joined elements followed by one `\n`, with no leading blank line |
| RustFile.FileSpec.constructor | src/rust/file_spec.rs:16-18 | a new file has no elements |
| RustFile.FileSpec.Push | src/rust/file_spec.rs:20-24 | appends to the elements only |
| RustFile.FileSpec.Format | src/rust/file_spec.rs:59-77 | writes the rendering of the optional import block and the Spacing-joined elements, then one `\n` |
| RustFile.FileSpec.ToString | src/rust/file_spec.rs:86-92 | the string is what `format` writes |
| JavaTypes.WithArguments | src/java/_type.rs:18-23 | keeps package and name and replaces only the arguments |
| JavaTypes.Extend | src/java/_type.rs:25-29 | changes only the name, to `name + "." + part` |
| JavaTypes.ToRaw | src/java/_type.rs:31-33 | keeps package and name and drops the arguments |
| JavaTypes.RawForgetsArguments | src/java/_type.rs:18-33 | the raw form ignores the arguments, is idempotent, commutes with `extend`, and is the type itself exactly when it has no arguments |
| JavaTypes.AsBoxed | src/java/_type.rs:97-99 | the boxed type is `java.lang.<boxed>` with no arguments |
| JavaTypes.FormatClassType | src/java/_type.rs:35-57 | the loop that collects the argument texts at `level + 1` and joins them builds the class text |
| JavaTypes.FormatType | src/java/_type.rs:123-129 | dispatches to the variant's formatter at the same level |
| JavaTypes.ClassTextAnyLevel | src/java/_type.rs:35-57 | a class type is written the same at every level |
| JavaTypes.TypeTextBelowTop | src/java/_type.rs:89-95 | below the top level every type is written the same at every depth |
| JavaTypes.PrimitiveBoxing | src/java/_type.rs:89-99 | a primitive is written as itself at level 0 and as its boxed class name deeper |
| JavaTypes.ClassTextShape | src/java/_type.rs:35-57 | the text starts with the name, equals the name exactly when there are no arguments, and the raw type is written as its bare name |
| JavaTypes.OneArgumentText | src/java/_type.rs:40-54 | one argument gives `Name<arg>` with the argument written one level deeper |
| JavaTypes.BoxedArgumentExample | src/java/_type.rs:35-99 | `List` of `int` is written `List<Integer>` |
| JavaModifiers.Rank | java/src/modifier.rs:4-13 | every modifier has one of seven ranks |
| JavaModifiers.ModifierLessIsStrictTotal | java/src/modifier.rs:4 | the derived order on modifiers is a strict total order |
| JavaModifiers.AllModifiersRanked | java/src/modifier.rs:4-13 | the declaration list holds every modifier, in ascending order, each at its rank |
| JavaModifiers.Keyword | java/src/modifier.rs:33-41 | every modifier has a non-empty keyword |
| JavaModifiers.New | java/src/modifier.rs:21-23 | the new set is empty and contains no modifier |
| JavaModifiers.Insert | java/src/modifier.rs:25-27 | after `insert(m)` the set contains `m` and is not empty; membership of every other modifier is unchanged |
| JavaModifiers.EmptyContainsNothing | java/src/modifier.rs:47-53 | `is_empty` holds exactly when `contains` is false for every modifier |
| JavaModifiers.InsertSetSemantics | java/src/modifier.rs:25-27 | inserting twice equals inserting once, insertion order does not matter, and inserting a present modifier changes nothing |
| JavaModifiers.InOrderMembers | java/src/modifier.rs:32 | filtering the declaration list keeps exactly the modifiers of the set |
| JavaModifiers.InOrderSorted | java/src/modifier.rs:32 | the filtered list stays in declaration order |
| JavaModifiers.IterationIsDeclarationOrder | java/src/modifier.rs:4-45 | iterating the ordered set visits its modifiers in declaration order |
| JavaModifiers.Format | java/src/modifier.rs:29-45 | the loop over the ordered set produces the keyword text |
| JavaModifiers.KeywordList | java/src/modifier.rs:30-42 | the loop pushes one keyword per modifier, in order |
| JavaModifiers.FormatMeetsText | java/src/modifier.rs:29-45 | joining the keywords of the ordered set with one space gives the modifiers' text |
| JavaModifiers.TextEmptyIff | java/src/modifier.rs:44-49 | the text is `""` exactly when the set is empty |
| JavaModifiers.PublicStaticExample | java/src/modifier.rs:29-45 | `public` and `static` format as `public static` in either insertion order |
| JavaModifiers.PublicExample | java/src/modifier.rs:29-45 | `public` alone formats as `public` |
| JavaVariables.Lit | java/src/common.rs:10 | a `&str` pushed as a part becomes a literal variable holding that text |
| JavaVariables.ClassVariable | src/java/class_spec.rs:103-107 | a class type converts to a type variable holding that class type |
| JavaVariables.ModifiersVariable | java/src/modifier.rs:56-60 | a modifier set converts to the literal of its text, which is empty exactly when the set is |
| JavaVariables.FromModifiers | java/src/modifier.rs:56-60 | the conversion method gives the modifiers' literal |
| JavaVariables.Single | java/src/field_spec.rs:82-85 | wrapping a variable gives a one-part statement |
| JavaVariables.NewExtra | java/src/extra.rs:10-32 | `new` and `default` have no locals |
| JavaVariables.WithLocals | java/src/extra.rs:14-16 | the given table is stored unchanged |
| JavaVariables.AbsoluteImportCases | java/src/extra.rs:19-25 | false for an unregistered name and for the default extra; false when the registered type is the raw type, whatever its arguments; true when another type is registered under the name |
| JavaVariables.ElementKeepsIndent | src/java/variable.rs:30 | a tree variable formatted as its own tree keeps the indentation level whenever the tree's own variables keep it |
| JavaCommon.Implements | java/src/common.rs:3-19 | the loop appends the implements parts to `dest` and keeps its earlier parts |
| JavaCommon.ImplementsShape | java/src/common.rs:3-19 | no types add nothing; n types add 2n parts: `" implements "`, then the types with `", "` between them |
| JavaCommon.ImplementsText | java/src/common.rs:3-19 | with each type written as a given text, the clause reads `" implements "` and the texts joined by `", "`, or nothing |
| JavaCommon.JoinStatements | java/src/common.rs:21-45 | the loop builds the joined parts |
| JavaCommon.JoinedShape | java/src/common.rs:21-45 | nothing gives an empty statement; n items give 2n-1 parts with the items at even positions and the separator at odd ones |
| JavaImports.AllImportsItems | java/src/imports.rs:6-14 | `import_all` reports exactly what one of its items reports |
| JavaImports.PartsImportsItems | java/src/imports.rs:60-66 | a statement reports exactly what one of its parts reports |
| JavaImports.TypesImportsItems | java/src/imports.rs:78-86 | a list of arguments reports exactly what one of them reports |
| JavaImports.ClassReportsArguments | java/src/imports.rs:78-98 | a class type reports itself and everything its class arguments report; primitive and local types report nothing |
| JavaImports.PlainArgumentsReportNothing | java/src/imports.rs:78-98 | a class type whose arguments are not class types reports only itself |
| JavaImports.AllImportsAppend | java/src/imports.rs:6-14 | visiting two lists reports the union of both |
| JavaImports.JoinKeepsImports | java/src/imports.rs:23-38 | joining with a separator that reports nothing, such as `Spacing`, reports the same types |
| JavaImports.ImportsAreMentioned | java/src/imports.rs:23-76 | the visitor reports exactly the class types of the variables the renderer formats, `Concat` included |
| JavaImports.StatementMentioned | java/src/imports.rs:23-66 | pushed and concatenated statements report their own variables' types |
| JavaImports.EvenPartsReport | java/src/imports.rs:60-66 | a statement with class types at even positions reports each of them |
| JavaImports.VariableReports | java/src/imports.rs:40-58 | text, strings, spacing and modifiers report nothing; a class type variable reports its class type's report |
| JavaMembers.PushModifiers | java/src/field_spec.rs:66-69 | appends the modifiers' literal followed by `" "` only when the set is not empty |
| JavaMembers.ModsPartsText | java/src/field_spec.rs:66-69 | the modifier prefix reads as the text plus a space, and is empty exactly when the set is |
| JavaMembers.NewAnnotation | src/java/annotation_spec.rs:14-21 | a new annotation has its type and no arguments |
| JavaMembers.PushAnnotationArgument | src/java/annotation_spec.rs:23-27 | appends one argument and keeps the type |
| JavaMembers.AnnotationVariable | src/java/annotation_spec.rs:71-75 | an annotation converts to an element variable of its tree |
| JavaMembers.AnnotationShape | src/java/annotation_spec.rs:44-69 | without arguments the annotation renders `@` and its type; with n arguments they are joined by `", "` into 2n-1 parts |
| JavaMembers.AnnotationElements | java/src/field_spec.rs:60-62 | the loop pushes one tree per annotation, in order |
| JavaMembers.FieldSpec.constructor | java/src/field_spec.rs:13-24 | a new field has no annotations and no initializer |
| JavaMembers.FieldSpec.PushAnnotation | java/src/field_spec.rs:26-31 | appends to the annotations only |
| JavaMembers.FieldSpec.Initialize | java/src/field_spec.rs:33-38 | sets the initializer only |
| JavaMembers.FieldVariable | java/src/field_spec.rs:50-54 | a field converts to the literal of its name |
| JavaMembers.FieldIntoStatement | java/src/field_spec.rs:56-87 | builds the annotations and the declaration inside one element, wrapped in a one-part statement |
| JavaMembers.FieldDeclarationText | java/src/field_spec.rs:64-78 | the declaration reads `[modifiers " "] type " " name [" = " init]` |
| JavaMembers.ArgumentSpec.constructor | java/src/argument_spec.rs:12-22 | a new argument has no annotations |
| JavaMembers.ArgumentSpec.PushAnnotation | java/src/argument_spec.rs:24-26 | appends to the annotations only |
| JavaMembers.ArgumentVariable | java/src/argument_spec.rs:29-33 | an argument converts to the literal of its name |
| JavaMembers.AnnotationPrefixShape | java/src/argument_spec.rs:39-42 | each annotation is followed by a `" "` part, 2n parts in all |
| JavaMembers.ArgumentIntoStatement | java/src/argument_spec.rs:35-55 | builds the annotation prefix, the modifiers and `type " " name` |
| JavaMembers.ArgumentText | java/src/argument_spec.rs:44-51 | an argument without annotations reads `[modifiers " "] type " " name` |
| JavaMembers.ArgumentsIntoStatements | src/java/constructor_spec.rs:73-77 | converts every argument to its statement, in order |
| JavaMembers.ConstructorSpec.constructor | src/java/constructor_spec.rs:21-29 | a new constructor has no annotations, arguments, throws or body |
| JavaMembers.ConstructorSpec.PushAnnotation | src/java/constructor_spec.rs:31-35 | appends to the annotations only |
| JavaMembers.ConstructorSpec.PushArgument | src/java/constructor_spec.rs:37-41 | appends to the arguments only |
| JavaMembers.ConstructorSpec.Throws | src/java/constructor_spec.rs:43-47 | appends to the throws list only |
| JavaMembers.ConstructorSpec.Push | src/java/constructor_spec.rs:49-53 | appends to the body only |
| JavaMembers.PushParameters | src/java/constructor_spec.rs:71-77 | appends `()` or the nested argument list |
| JavaMembers.PushThrows | src/java/constructor_spec.rs:79-89 | appends the throws clause or nothing |
| JavaMembers.AsElement | src/java/constructor_spec.rs:55-98 | builds the annotations, the opening statement, the nested body and `}` |
| JavaMembers.ConstructorClauses | src/java/constructor_spec.rs:71-89 | the throws clause is empty exactly when there are no throws, else 2n-1 joined parts; the parameters are `()` exactly when there are no arguments, else the nested arguments joined into 2n-1 parts |
| JavaMembers.PlainConstructorRender | src/java/constructor_spec.rs:55-98 | a constructor without annotations, arguments or throws renders its header line, its nested body and `}` at the starting level |
| JavaMembers.ConstructorOpenText | src/java/constructor_spec.rs:64-91 | its header reads `[modifiers " "] enclosing "() {"` |
| JavaMembers.EmptyConstructorExample | src/java/constructor_spec.rs:55-98 | the empty public constructor of `Foo` renders `public Foo() {\n}` |
| JavaClasses.FieldsIntoElements | src/java/class_spec.rs:76-86 | the loop pushes one line per field, each ending in `;` |
| JavaClasses.PushFields | src/java/class_spec.rs:76-86 | appends the fields section only when there are fields |
| JavaClasses.PushConstructors | src/java/class_spec.rs:88-90 | appends one tree per constructor, named after the class |
| JavaClasses.PushAll | src/java/class_spec.rs:92-94 | appends the elements in order |
| JavaClasses.CloseContainer | src/java/class_spec.rs:96-97 | appends the nested Spacing-joined body and `}` |
| JavaClasses.ClassSpec.constructor | src/java/class_spec.rs:25-36 | a new class has empty lists and no superclass |
| JavaClasses.ClassSpec.Extends | src/java/class_spec.rs:38-42 | sets the superclass only |
| JavaClasses.ClassSpec.Implements | java/src/class_like.rs:16-20 | appends to the implements list only |
| JavaClasses.ClassSpec.PushAnnotation | java/src/class_like.rs:22-26 | appends to the annotations only |
| JavaClasses.ClassSpec.PushField | java/src/class_like.rs:28-32 | appends to the fields only |
| JavaClasses.ClassSpec.Fields | java/src/class_like.rs:34-36 | returns the fields |
| JavaClasses.ClassSpec.PushConstructor | java/src/class_like.rs:38-42 | appends to the constructors only |
| JavaClasses.ClassSpec.Push | java/src/container_spec.rs:18-25 | appends to the elements only |
| JavaClasses.ClassOpenStatement | src/java/class_spec.rs:53-70 | builds the opening statement |
| JavaClasses.ClassIntoElement | src/java/class_spec.rs:45-101 | builds annotations, opening, nested sections and `}` |
| JavaClasses.ClassOpening | src/java/class_spec.rs:49-70 | the annotations come first, then the opening line |
| JavaClasses.ClassSections | src/java/class_spec.rs:76-94 | builds the fields, constructors and elements sections |
| JavaClasses.ClassOpenText | src/java/class_spec.rs:53-70 | the header reads `[modifiers " "] "class " name [" extends " T] [" implements " types joined by ", "] " {"` |
| JavaClasses.ExtendsText | src/java/class_spec.rs:58-62 | the extends clause is present exactly when a superclass is set |
| JavaClasses.ClassRender | src/java/class_spec.rs:45-101 | renders the annotations, the header line, the nested Spacing-joined sections and `}` at the starting level |
| JavaClasses.ContainerRender | src/java/class_spec.rs:96-97 | any annotated opening with a Spacing-joined nested body renders that way |
| JavaClasses.EmptyClassRender | src/java/class_spec.rs:45-101 | an empty class renders its header and `}` on the next line |
| JavaClasses.PublicClassExample | src/lib.rs:83-87 | the empty public class renders `public class Foo {\n}` |
| JavaClasses.ClassHeaderImports | src/java/class_spec.rs:53-70 | the superclass and implemented types are reported to the import visitor |
| JavaClasses.OpenImports | java/src/imports.rs:23-38 | everything in the opening statement is reported |
| JavaClasses.EnumSpec.constructor | java/src/enum_spec.rs:16-27 | a new enum has every list empty |
| JavaClasses.EnumSpec.PushValue | java/src/enum_spec.rs:29-33 | appends to the values only |
| JavaClasses.EnumSpec.Implements | java/src/class_like.rs:46-50 | appends to the implements list only |
| JavaClasses.EnumSpec.PushAnnotation | java/src/class_like.rs:52-56 | appends to the annotations only |
| JavaClasses.EnumSpec.PushField | java/src/class_like.rs:58-62 | appends to the fields only |
| JavaClasses.EnumSpec.Fields | java/src/class_like.rs:64-66 | returns the fields |
| JavaClasses.EnumSpec.PushConstructor | java/src/class_like.rs:68-72 | appends to the constructors only |
| JavaClasses.EnumSpec.Push | java/src/container_spec.rs:27-34 | appends to the elements, not the values |
| JavaClasses.EnumOpenStatement | java/src/enum_spec.rs:44-61 | builds the opening statement |
| JavaClasses.ValuesIntoElement | java/src/enum_spec.rs:65-84 | joins the values by a `Concat` of `,` and ends them with a `Concat` of `;` |
| JavaClasses.EnumIntoElement | java/src/enum_spec.rs:36-111 | builds annotations, opening, the values, fields, constructors and elements sections, nested and closed by `}` |
| JavaClasses.EnumOpenText | java/src/enum_spec.rs:44-61 | the header reads `[modifiers " "] "enum " name [" implements " types] " {"` |
| JavaClasses.EnumRender | java/src/enum_spec.rs:36-111 | renders annotations, header line, the nested Spacing-joined sections and `}` at the starting level |
| JavaClasses.ValuesExec | java/src/enum_spec.rs:65-78 | each value appears on its own indented line, with `,` kept at the end of the line before |
| JavaClasses.SectionExec | java/src/enum_spec.rs:65-84 | the values section writes the lines joined by `,\n` then `;`; with no values, the indent then `;` |
| JavaClasses.ValuesSectionExec | java/src/enum_spec.rs:65-84 | the same for the section built from the values list |
| JavaClasses.ConstantsEnumRender | java/src/enum_spec.rs:36-111 | an enum with only values renders its header, the indented values joined by `,\n`, `;` and `}` |
| JavaClasses.PublicEnumExample | src/lib.rs:97-101 | the empty public enum renders `public enum Foo {\n  ;\n}` |
| JavaClasses.EnumHeaderImports | java/src/enum_spec.rs:44-61 | the implemented types are reported to the import visitor |
| JavaClasses.InterfaceSpec.constructor | java/src/interface_spec.rs:13-21 | a new interface has empty annotations, elements and extends |
| JavaClasses.InterfaceSpec.PushAnnotation | java/src/interface_spec.rs:23-25 | appends to the annotations only |
| JavaClasses.InterfaceSpec.Extends | java/src/interface_spec.rs:27-31 | appends to the extended interfaces only |
| JavaClasses.InterfaceSpec.Push | java/src/container_spec.rs:9-16 | appends to the elements only |
| JavaClasses.InterfaceOpenStatement | java/src/interface_spec.rs:44-63 | builds the opening statement |
| JavaClasses.InterfaceIntoElement | java/src/interface_spec.rs:34-71 | builds annotations, opening, the nested Spacing-joined body and `}` |
| JavaClasses.InterfaceExtendsShape | java/src/interface_spec.rs:52-61 | the extends clause is present exactly when the list is not empty, and joins the types by `,` with no space into 2n-1 parts |
| JavaClasses.InterfaceOpenText | java/src/interface_spec.rs:44-63 | the header reads `[modifiers " "] "interface " name [" extends " types joined by ","] " {"` |
| JavaClasses.InterfaceRender | java/src/interface_spec.rs:34-71 | renders annotations, header line, the nested Spacing-joined body and `}` at the starting level |
| JavaClasses.EmptyInterfaceRender | java/src/interface_spec.rs:34-71 | an empty interface renders its header and `}` on the next line |
| JavaClasses.PublicInterfaceExample | src/lib.rs:90-94 | the empty public interface renders `public interface Foo {\n}` |
| JavaClasses.InterfaceHeaderImports | java/src/interface_spec.rs:52-61 | the extended types are reported to the import visitor |
| JavaClasses.ExtendsReports | java/src/interface_spec.rs:52-61 | the extends clause reports every extended type |
| JavaFile.KeptRaw | java/src/file_spec.rs:45-50 | a reported type outside `java.lang` and the own package is kept in raw form; nothing else is kept |
| JavaFile.ScanTable | java/src/file_spec.rs:55-60 | each chosen import is recorded under its simple name as its raw type, and every local comes from a chosen import |
| JavaFile.ScanCovers | java/src/file_spec.rs:55-60 | every simple name met ends up in the locals |
| JavaFile.ScanDistinctNames | java/src/file_spec.rs:55-71 | no two chosen imports share a simple name |
| JavaFile.ScanLastStep | java/src/file_spec.rs:56-58 | a type met last is imported exactly when no earlier type had its simple name |
| JavaFile.LastShadowed | java/src/file_spec.rs:56-58 | a type not imported was shadowed by an earlier type of the same simple name |
| JavaFile.ScanFirstWins | java/src/file_spec.rs:55-60 | a type is imported exactly when no earlier type had its simple name |
| JavaFile.ScanSorted | java/src/file_spec.rs:55-71 | the import lines come out in ascending (package, name) order |
| JavaFile.ScanLeastPackage | java/src/file_spec.rs:55-60 | of the types sharing a simple name, the one with the least package is imported |
| JavaFile.ScanNonEmpty | java/src/file_spec.rs:52-71 | something is imported exactly when some type is kept |
| JavaFile.FileImportsChosen | java/src/file_spec.rs:41-71 | the imports of a file are kept types, sorted, distinct by name and covering every kept name, and present exactly when a type is kept |
| JavaFile.FileChosenOrdered | java/src/file_spec.rs:45-71 | the imports of a file are kept types, sorted and distinct by name |
| JavaFile.FileChosenCovers | java/src/file_spec.rs:45-71 | every kept name is a local, and the least package wins |
| JavaFile.ImportedIffSimple | java/src/file_spec.rs:55-80 | a kept type is imported exactly when the renderer is told not to write it with its package |
| JavaFile.ImportLine | java/src/file_spec.rs:62-68 | builds the import statement of one type |
| JavaFile.ImportAll | java/src/file_spec.rs:53-71 | the loop with `continue` on a taken name produces the locals table and one import line per chosen type |
| JavaFile.ImportStatementText | java/src/file_spec.rs:62-68 | an import reads `import pkg.Name;` |
| JavaFile.PackageStatementText | java/src/file_spec.rs:32-35 | the package line reads `package <pkg>;` |
| JavaFile.ImportLinesExec | java/src/file_spec.rs:53-73 | the import block writes its lines joined by `\n` |
| JavaFile.PackageExec | java/src/file_spec.rs:32-79 | the package line is followed by one blank line |
| JavaFile.ImportsExec | java/src/file_spec.rs:73-79 | the import block is followed by one blank line |
| JavaFile.FileShape | java/src/file_spec.rs:73-79 | package, imports and body joined by Spacing read as the package line, a blank line, the imports and the body |
| JavaFile.BareFileShape | java/src/file_spec.rs:52-79 | without imports the file reads package line, blank line, body |
| JavaFile.ImportingFileShape | java/src/file_spec.rs:73-79 | with imports the file reads package line, blank line, imports, blank line, body |
| JavaFile.ImportsThenBody | java/src/file_spec.rs:73-79 | the import block, a Spacing and the body render as the imports text then the body |
| JavaFile.FileDefined | java/src/file_spec.rs:80-82 | the rendering leaf is called only where it is defined |
| JavaFile.FileTextShape | java/src/file_spec.rs:26-86 | the file is the package line, a blank line, the imports, the Spacing-joined body and one `\n` |
| JavaFile.NothingImported | java/src/file_spec.rs:52-83 | with nothing to import the locals are empty and no import section appears |
| JavaFile.ImportsInto | java/src/file_spec.rs:52-74 | appends the import block when there is one and returns the locals |
| JavaFile.FileElement | java/src/file_spec.rs:30-80 | builds the file tree and the locals table |
| JavaFile.FileSpec.constructor | java/src/file_spec.rs:12-17 | a new file has its package and no elements |
| JavaFile.FileSpec.Push | java/src/file_spec.rs:19-24 | appends to the elements only |
| JavaFile.FileSpec.Format | java/src/file_spec.rs:26-86 | writes the rendering of the file tree with the locals as extra, then `\n` |
| JavaFile.FileSpec.ToString | java/src/file_spec.rs:95-101 | the string is what `format` writes |

## Left out

- The formatter's own source (common/src/element_formatter.rs and common/src/element_format.rs) is not part of this model. `Formatter.ElementFormatter` is an abstract sink whose behaviour is fixed by the expected outputs in src/lib.rs:86, 93, 100 and 120. Its internals, such as how the indent buffer grows, are not claimed.
- Sink failures and the error kinds of common/src/errors.rs are not modelled. The sink is infallible, so the rule that the first error from a statement or a child aborts the rest of `format` has nothing to stop.
- The visitors report into a receiver object. The model represents a visit as the set of names or types it reports, so the order and repetition of `receive` calls are not represented. Every receiver in the core is a set, which makes order and repetition irrelevant to them.
- `HashMap`, `BTreeSet` and `BTreeMap` are modelled as Dafny maps and sets. A `BTree` structure's iteration order is the ascending sequence under a proved strict total order (`Orders.SortedSeq`).
- Rust's `From`/`Into`/`Clone` impls and the blanket `&T` impls are modelled as plain functions and methods.
- The macros in macros/src/lib.rs are sugar for repeated `push` and `insert`, so only those calls are modelled.
- The module plumbing files are not modelled: common/src/lib.rs, java/src/lib.rs, python/src/lib.rs, rust/src/lib.rs and src/*/mod.rs.
- The two fixture tests at src/lib.rs:14-36 and src/lib.rs:44-80 are not modelled. They compare against files that are not part of this model.
- The older drafts under src/ are not modelled, apart from five files, src/java/_type.rs, src/java/class_spec.rs, src/java/constructor_spec.rs, src/rust/struct_spec.rs and src/rust/file_spec.rs, and the tree-variable case of src/java/variable.rs. The drafts repeat the crates with incompatible signatures, and their quoting tables equal the one in python/src/variable.rs, which is modelled (`Quoting`).
- The old line-list renderer and its String sink (src/js/element_spec.rs, src/common/element_format.rs) are not modelled. The indent-aware renderer replaced them.
- The annotation builder follows src/java/annotation_spec.rs, because java/src/annotation_spec.rs is not part of this model.
- java/src/variable.rs and java/src/_type.rs are not part of this model. These files decide whether a Java type is written by its short or its qualified name. The rendering leaf is therefore a parameter of every render lemma, and the model covers only the `absolute_import` decision the leaf consults (`JavaVariables.AbsoluteImportCases`, `JavaFile.ImportedIffSimple`). The render lemmas ask of the leaf that literals write their text and that the variables of a declaration's body keep the indentation level. A tree variable formatted as its own tree, as in the draft src/java/variable.rs:30, meets the second condition (`JavaVariables.ElementKeepsIndent`), so fields and constructors with arguments are covered.
- js/src/variable.rs and js/src/name.rs are not part of this model. JavaScript variables are formatted like the Python ones (`Scripts`): the same four kinds and the same quoting table, which the draft src/js/variable.rs also shows. Names use the format of src/js/name.rs.
- The Rust adapter's variables, names and import visitor are not part of this model. `RustFile` takes the visitor as a parameter, and `RustSpecs` takes the variable type as a type parameter. The Rust render lemmas ask of the leaf that text variables write their text, that every body variable is defined, and, for an item's body, that its variables keep the indentation level.
- `PyDecorators.DecoratorElement`: the pushed arguments are stored but never rendered. python/src/decorator_spec.rs:49-58 does not render them either.
- JavaMembers.ArgumentText, JavaMembers.PlainConstructorRender, JavaMembers.ConstructorOpenText: these state the rendered text only for builders without annotations (the constructor ones also without arguments or throws clauses). For the other cases, the tree's shape is stated by `JavaMembers.ConstructorClauses` and `JavaMembers.AnnotationPrefixShape`.
- JavaClasses.ConstantsEnumRender, JavaClasses.EmptyClassRender, JavaClasses.EmptyInterfaceRender: these state the full text only for containers without annotations, fields, constructors or other elements. For every other container, `ClassRender`, `EnumRender` and `InterfaceRender` state the rendering in terms of the sections' own traces.
- The Java render lemmas write every type as a text the caller supplies (`Blocks.WrittenAs`), not as the text the unmodelled leaf would choose.
- Two consecutive `Spacing`s give two blank lines, and a leading `Spacing` gives a leading empty line, as common/src/element.rs:48-51 does (`Document.TwoSpacings`, `Document.LeadingSpacing`).
- The extra value that `format` passes down as `&mut Var::Extra` (common/src/variable_format.rs:6, common/src/element.rs:20) is modelled as read-only: every part and child receives the same value. No modelled variable writes it; the Java leaf only reads its table of taken names (java/src/extra.rs:19-25).
