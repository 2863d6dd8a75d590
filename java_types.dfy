/** Java types: class types with generic arguments, primitives and local
    type variables, and how each is written at a nesting level.

    A primitive is written as itself at the top level and as its boxed
    class inside generic arguments, where Java does not allow primitives. */
module JavaTypes {
  import opened Joins

  datatype ClassType = ClassType(package: string, name: string, arguments: seq<Type>)

  datatype PrimitiveType = PrimitiveType(primitive: string, boxed: string)

  datatype LocalType = LocalType(name: string)

  datatype Type =
    | Primitive(primitiveType: PrimitiveType)
    | Class(classType: ClassType)
    | Local(localType: LocalType)

  /** `ClassType::with_arguments`: the same class with other arguments. */
  function WithArguments(c: ClassType, arguments: seq<Type>): (r: ClassType)
    ensures r.package == c.package && r.name == c.name && r.arguments == arguments
  {
    ClassType(c.package, c.name, arguments)
  }

  /** `ClassType::extend`: a nested class, `name.part`, with the same
      package and arguments. */
  function Extend(c: ClassType, part: string): (r: ClassType)
    ensures r.package == c.package && r.arguments == c.arguments
    ensures r.name == c.name + "." + part
  {
    ClassType(c.package, c.name + "." + part, c.arguments)
  }

  /** `ClassType::to_raw`: the importable class, without arguments. */
  function ToRaw(c: ClassType): (r: ClassType)
    ensures r.package == c.package && r.name == c.name && r.arguments == []
  {
    ClassType(c.package, c.name, [])
  }

  /** The raw type does not depend on the arguments, and taking it twice
      is taking it once. */
  lemma RawForgetsArguments(c: ClassType, arguments: seq<Type>, part: string)
    ensures ToRaw(WithArguments(c, arguments)) == ToRaw(c)
    ensures ToRaw(ToRaw(c)) == ToRaw(c)
    ensures ToRaw(Extend(c, part)) == Extend(ToRaw(c), part)
    ensures c.arguments == [] <==> ToRaw(c) == c
  {
  }

  /** `PrimitiveType::as_boxed`: the boxed class in `java.lang`. */
  function AsBoxed(p: PrimitiveType): (r: ClassType)
    ensures r.package == "java.lang" && r.name == p.boxed && r.arguments == []
  {
    ClassType("java.lang", p.boxed, [])
  }

  /** `PrimitiveType::format`. */
  function PrimitiveText(p: PrimitiveType, level: nat): string
  {
    if level <= 0 then p.primitive else p.boxed
  }

  /** `Type::format`: each kind of type written by its own formatter, at
      the same level. */
  function TypeText(t: Type, level: nat): string
    decreases t
  {
    match t
    case Primitive(p) => PrimitiveText(p, level)
    case Class(c) => ClassText(c, level)
    case Local(l) => l.name
  }

  /** What `ClassType::format` writes: the name, then the arguments between
      angle brackets, one level deeper, when there are any. */
  function ClassText(c: ClassType, level: nat): string
    decreases c
  {
    if c.arguments == [] then c.name
    else c.name + "<" + JoinStrings(ArgumentTexts(c.arguments, level + 1), ", ") + ">"
  }

  function ArgumentTexts(ts: seq<Type>, level: nat): (r: seq<string>)
    ensures |r| == |ts|
    decreases ts
  {
    seq(|ts|, i requires 0 <= i < |ts| => TypeText(ts[i], level))
  }

  /** `ClassType::format`, building the string with a loop over the
      arguments. */
  method FormatClassType(c: ClassType, level: nat) returns (out: string)
    ensures out == ClassText(c, level)
    decreases c
  {
    out := c.name;
    if c.arguments != [] {
      var arguments: seq<string> := [];
      for i := 0 to |c.arguments|
        invariant arguments == ArgumentTexts(c.arguments[..i], level + 1)
      {
        var g := FormatType(c.arguments[i], level + 1);
        assert ArgumentTexts(c.arguments[..i + 1], level + 1) == ArgumentTexts(c.arguments[..i], level + 1) + [g];
        arguments := arguments + [g];
      }
      assert c.arguments[..|c.arguments|] == c.arguments;
      var joined := JoinStrings(arguments, ", ");
      out := out + "<" + joined + ">";
    }
  }

  /** `Type::format` on the method side. */
  method FormatType(t: Type, level: nat) returns (s: string)
    ensures s == TypeText(t, level)
    decreases t
  {
    match t
    case Primitive(p) =>
      s := PrimitiveText(p, level);
    case Class(c) =>
      s := FormatClassType(c, level);
    case Local(l) =>
      s := l.name;
  }

  /** A class type is written the same way at every level: only its
      arguments move one level deeper, and they are always below the top. */
  lemma ClassTextAnyLevel(c: ClassType, l1: nat, l2: nat)
    ensures ClassText(c, l1) == ClassText(c, l2)
  {
    if c.arguments != [] {
      assert ArgumentTexts(c.arguments, l1 + 1) == ArgumentTexts(c.arguments, l2 + 1) by {
        forall i | 0 <= i < |c.arguments| ensures TypeText(c.arguments[i], l1 + 1) == TypeText(c.arguments[i], l2 + 1) {
          TypeTextBelowTop(c.arguments[i], l1 + 1, l2 + 1);
        }
      }
    }
  }

  /** Below the top level a type is written the same at every depth. */
  lemma TypeTextBelowTop(t: Type, l1: nat, l2: nat)
    requires l1 > 0 && l2 > 0
    ensures TypeText(t, l1) == TypeText(t, l2)
    decreases t
  {
    if t.Class? {
      ClassTextAnyLevel(t.classType, l1, l2);
    }
  }

  /** A primitive at the top level is written as itself; nested one level,
      as its boxed class would be. */
  lemma PrimitiveBoxing(p: PrimitiveType, level: nat)
    ensures TypeText(Primitive(p), 0) == p.primitive
    ensures TypeText(Primitive(p), level + 1) == ClassText(AsBoxed(p), level) == p.boxed
  {
  }

  /** A class type is written as its name, followed by the arguments only
      when there are some; the raw type is the bare name. */
  lemma ClassTextShape(c: ClassType, level: nat)
    ensures |c.name| <= |ClassText(c, level)| && ClassText(c, level)[..|c.name|] == c.name
    ensures ClassText(c, level) == c.name <==> c.arguments == []
    ensures ClassText(ToRaw(c), level) == c.name
  {
  }

  /** One argument: `Name<Arg>`, the argument one level deeper. */
  lemma OneArgumentText(c: ClassType, a: Type, level: nat)
    ensures ClassText(WithArguments(c, [a]), level) == c.name + "<" + TypeText(a, level + 1) + ">"
  {
    var ts := ArgumentTexts([a], level + 1);
    assert ts == [TypeText(a, level + 1)];
    JoinStringsSmall(ts, ", ");
  }

  /** `List<int>` is written `List<Integer>`. */
  lemma BoxedArgumentExample()
    ensures ClassText(ClassType("java.util", "List", [Primitive(PrimitiveType("int", "Integer"))]), 0) == "List<Integer>"
  {
    OneArgumentText(ClassType("java.util", "List", []), Primitive(PrimitiveType("int", "Integer")), 0);
  }
}
