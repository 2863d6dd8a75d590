/** Java modifier sets.

    A set of modifiers is an ordered set of the seven Java modifiers; the
    order is the order of their declaration, so `format` writes them in that
    order whatever order they were inserted in. */
module JavaModifiers {
  import opened Joins
  import Orders

  datatype Modifier = Default | Public | Protected | Private | Abstract | Static | Final

  /** Position in the declaration; the derived `Ord` compares it. */
  function Rank(m: Modifier): (r: nat)
    ensures r < 7
  {
    match m
    case Default => 0
    case Public => 1
    case Protected => 2
    case Private => 3
    case Abstract => 4
    case Static => 5
    case Final => 6
  }

  predicate ModifierLess(a: Modifier, b: Modifier)
  {
    Rank(a) < Rank(b)
  }

  lemma ModifierLessIsStrictTotal()
    ensures Orders.StrictTotal(ModifierLess)
  {
    forall a: Modifier, b: Modifier | a != b ensures ModifierLess(a, b) || ModifierLess(b, a) {
      assert Rank(a) != Rank(b) by {
        match a
        case Default =>
        case Public =>
        case Protected =>
        case Private =>
        case Abstract =>
        case Static =>
        case Final =>
      }
    }
  }

  /** Every modifier, in the order of the declaration. */
  const AllModifiers: seq<Modifier> := [Default, Public, Protected, Private, Abstract, Static, Final]

  lemma AllModifiersRanked()
    ensures forall i :: 0 <= i < |AllModifiers| ==> Rank(AllModifiers[i]) == i
    ensures forall m: Modifier :: m in AllModifiers
    ensures Orders.SortedBy(AllModifiers, ModifierLess)
  {
    forall m: Modifier ensures m in AllModifiers {
      assert AllModifiers[Rank(m)] == m;
    }
  }

  /** The keyword written for a modifier. */
  function Keyword(m: Modifier): (r: string)
    ensures r != ""
  {
    match m
    case Abstract => "abstract"
    case Default => "default"
    case Public => "public"
    case Protected => "protected"
    case Private => "private"
    case Static => "static"
    case Final => "final"
  }

  datatype Modifiers = Modifiers(modifiers: set<Modifier>)

  /** `Modifiers::new`. */
  function New(): (r: Modifiers)
    ensures IsEmpty(r)
    ensures forall m :: !Contains(r, m)
  {
    Modifiers({})
  }

  /** `Modifiers::insert`: set insertion. */
  function Insert(ms: Modifiers, m: Modifier): (r: Modifiers)
    ensures Contains(r, m) && !IsEmpty(r)
    ensures forall x :: x != m ==> (Contains(r, x) <==> Contains(ms, x))
  {
    Modifiers(ms.modifiers + {m})
  }

  /** `Modifiers::is_empty`. */
  predicate IsEmpty(ms: Modifiers)
  {
    |ms.modifiers| == 0
  }

  /** `Modifiers::contains`. */
  predicate Contains(ms: Modifiers, m: Modifier)
  {
    m in ms.modifiers
  }

  /** A set is empty exactly when it contains no modifier. */
  lemma EmptyContainsNothing(ms: Modifiers)
    ensures IsEmpty(ms) <==> forall m :: !Contains(ms, m)
  {
    if !IsEmpty(ms) {
      var m :| m in ms.modifiers;
      assert Contains(ms, m);
    } else {
      assert ms.modifiers == {};
    }
  }

  /** Inserting twice is inserting once, and the order of insertions does
      not matter. */
  lemma InsertSetSemantics(ms: Modifiers, a: Modifier, b: Modifier)
    ensures Insert(Insert(ms, a), a) == Insert(ms, a)
    ensures Insert(Insert(ms, a), b) == Insert(Insert(ms, b), a)
    ensures Contains(ms, a) ==> Insert(ms, a) == ms
  {
  }

  /** The modifiers of `xs` that are in `s`, in the order of `xs`. */
  function InOrder(s: set<Modifier>, xs: seq<Modifier>): seq<Modifier>
  {
    if xs == [] then [] else (if xs[0] in s then [xs[0]] else []) + InOrder(s, xs[1..])
  }

  lemma {:induction false} InOrderMembers(s: set<Modifier>, xs: seq<Modifier>)
    ensures forall m :: m in InOrder(s, xs) <==> m in s && m in xs
  {
    if xs != [] {
      InOrderMembers(s, xs[1..]);
      assert xs == [xs[0]] + xs[1..];
    }
  }

  function Keywords(ms: seq<Modifier>): (r: seq<string>)
    ensures |r| == |ms|
  {
    seq(|ms|, i requires 0 <= i < |ms| => Keyword(ms[i]))
  }

  /** What `format` writes: the keywords of the set in declaration order,
      separated by single spaces. */
  function ModifiersText(ms: Modifiers): string
  {
    JoinStrings(Keywords(InOrder(ms.modifiers, AllModifiers)), " ")
  }

  /** Filtering keeps an ascending sequence ascending. */
  lemma {:induction false} InOrderSorted(s: set<Modifier>, xs: seq<Modifier>)
    requires Orders.SortedBy(xs, ModifierLess)
    ensures Orders.SortedBy(InOrder(s, xs), ModifierLess)
  {
    if xs != [] {
      assert Orders.SortedBy(xs[1..], ModifierLess) by {
        forall i, j | 0 <= i < j < |xs[1..]| ensures ModifierLess(xs[1..][i], xs[1..][j]) {
          assert xs[1..][i] == xs[i + 1] && xs[1..][j] == xs[j + 1];
        }
      }
      InOrderSorted(s, xs[1..]);
      InOrderMembers(s, xs[1..]);
      var rest := InOrder(s, xs[1..]);
      forall m | m in rest ensures ModifierLess(xs[0], m) {
        var k :| 0 <= k < |xs[1..]| && xs[1..][k] == m;
        assert xs[k + 1] == m;
      }
    }
  }

  /** The iteration order of the set is the order of the declaration. */
  lemma IterationIsDeclarationOrder(s: set<Modifier>)
    ensures Orders.StrictTotal(ModifierLess)
    ensures Orders.SortedSeq(s, ModifierLess) == InOrder(s, AllModifiers)
  {
    ModifierLessIsStrictTotal();
    AllModifiersRanked();
    InOrderSorted(s, AllModifiers);
    InOrderMembers(s, AllModifiers);
    Orders.SortedUnique(Orders.SortedSeq(s, ModifierLess), InOrder(s, AllModifiers), ModifierLess);
  }

  /** `Modifiers::format`: visits the set in its order, writes one keyword
      per modifier and joins them with spaces. */
  method Format(ms: Modifiers) returns (s: string)
    ensures s == ModifiersText(ms)
  {
    ModifierLessIsStrictTotal();
    var ordered := Orders.SortedList(ms.modifiers, ModifierLess);
    var out := KeywordList(ordered);
    s := JoinStrings(out, " ");
    FormatMeetsText(ms, ordered);
  }

  /** The loop of `format`: the keyword of each modifier, in order. */
  method KeywordList(ordered: seq<Modifier>) returns (out: seq<string>)
    ensures out == Keywords(ordered)
  {
    out := [];
    for i := 0 to |ordered|
      invariant out == Keywords(ordered[..i])
    {
      assert ordered[..i + 1] == ordered[..i] + [ordered[i]];
      out := out + [Keyword(ordered[i])];
    }
    assert ordered[..|ordered|] == ordered;
  }

  lemma FormatMeetsText(ms: Modifiers, ordered: seq<Modifier>)
    requires Orders.StrictTotal(ModifierLess)
    requires ordered == Orders.SortedSeq(ms.modifiers, ModifierLess)
    ensures JoinStrings(Keywords(ordered), " ") == ModifiersText(ms)
  {
    IterationIsDeclarationOrder(ms.modifiers);
  }

  /** The text is empty exactly when the set is: every keyword has letters. */
  lemma TextEmptyIff(ms: Modifiers)
    ensures ModifiersText(ms) == "" <==> IsEmpty(ms)
  {
    var ks := Keywords(InOrder(ms.modifiers, AllModifiers));
    AllModifiersRanked();
    InOrderMembers(ms.modifiers, AllModifiers);
    JoinStringsEmpty(ks, " ");
    if !IsEmpty(ms) {
      var m :| m in ms.modifiers;
      assert m in InOrder(ms.modifiers, AllModifiers);
    } else {
      assert ms.modifiers == {};
      InOrderOfNothing(AllModifiers);
    }
  }

  lemma {:induction false} InOrderOfNothing(xs: seq<Modifier>)
    ensures InOrder({}, xs) == []
  {
    if xs != [] {
      InOrderOfNothing(xs[1..]);
    }
  }

  /** The keywords in declaration order, whatever was inserted first. */
  lemma PublicStaticExample()
    ensures ModifiersText(Insert(Insert(New(), Static), Public)) == "public static"
    ensures ModifiersText(Insert(Insert(New(), Public), Static)) == "public static"
  {
    assert Insert(Insert(New(), Static), Public).modifiers == {Public, Static};
    assert Insert(Insert(New(), Public), Static).modifiers == {Public, Static};
    PublicStaticOrder();
    PublicStaticText();
  }

  lemma PublicStaticOrder()
    ensures InOrder({Public, Static}, AllModifiers) == [Public, Static]
  {
    var s := {Public, Static};
    var t6: seq<Modifier> := [Final];
    var t5 := [Static] + t6;
    var t4 := [Abstract] + t5;
    var t3 := [Private] + t4;
    var t2 := [Protected] + t3;
    var t1 := [Public] + t2;
    assert AllModifiers == [Default] + t1;
    assert InOrder(s, t6) == [] by { assert t6[1..] == []; }
    assert InOrder(s, t5) == [Static] by { assert t5[1..] == t6; }
    assert InOrder(s, t4) == [Static] by { assert t4[1..] == t5; }
    assert InOrder(s, t3) == [Static] by { assert t3[1..] == t4; }
    assert InOrder(s, t2) == [Static] by { assert t2[1..] == t3; }
    assert InOrder(s, t1) == [Public, Static] by { assert t1[1..] == t2; }
    assert AllModifiers[1..] == t1;
  }

  lemma PublicStaticText()
    ensures JoinStrings(Keywords([Public, Static]), " ") == "public static"
  {
    var ks := Keywords([Public, Static]);
    assert ks == ["public"] + ["static"];
    JoinStringsSnoc(["public"], "static", " ");
    JoinStringsSmall(["public"], " ");
  }

  /** A set of the one modifier `public` is written `public`. */
  lemma PublicExample()
    ensures ModifiersText(Insert(New(), Public)) == "public"
  {
    assert Insert(New(), Public).modifiers == {Public};
    PublicOrder();
    var ks := Keywords([Public]);
    assert ks == ["public"];
    JoinStringsSmall(ks, " ");
  }

  lemma PublicOrder()
    ensures InOrder({Public}, AllModifiers) == [Public]
  {
    var s := {Public};
    var t6: seq<Modifier> := [Final];
    var t5 := [Static] + t6;
    var t4 := [Abstract] + t5;
    var t3 := [Private] + t4;
    var t2 := [Protected] + t3;
    var t1 := [Public] + t2;
    assert AllModifiers == [Default] + t1;
    assert InOrder(s, t6) == [] by { assert t6[1..] == []; }
    assert InOrder(s, t5) == [] by { assert t5[1..] == t6; }
    assert InOrder(s, t4) == [] by { assert t4[1..] == t5; }
    assert InOrder(s, t3) == [] by { assert t3[1..] == t4; }
    assert InOrder(s, t2) == [] by { assert t2[1..] == t3; }
    assert InOrder(s, t1) == [Public] by { assert t1[1..] == t2; }
    assert AllModifiers[1..] == t1;
  }
}
