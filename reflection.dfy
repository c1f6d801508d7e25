/**
 * The field-introspection helper: finding the non-static fields of a class and
 * of all its superclasses whose declared type is a given class, or whose type's
 * simple name equals a given string ignoring case.
 *
 * A class is a value holding its own declared fields, in the order reflection
 * reports them, and its superclass; a field is identified by the class that
 * declares it and its position among that class's declared fields.
 */
module Reflection {
  import opened Wrappers
  import opened JavaStrings

  /** A `java.lang.Class` used as a declared field type: equal values are the same class. */
  datatype JType = JType(name: string, simpleName: string)

  /** One entry of `getDeclaredFields()`: the field's name, declared type and `static` modifier. */
  datatype FieldDecl = FieldDecl(name: string, declaredType: JType, isStatic: bool)

  /**
   * A class: its simple name, its package's name, its own declared fields in
   * reflection order, and its superclass (None above `java.lang.Object`).
   */
  datatype JClass = JClass(simpleName: string, packageName: string, declared: seq<FieldDecl>, superclass: Option<JClass>)

  /** A `java.lang.reflect.Field`: the declaring class, the field's position there, and its declaration. */
  datatype Field = Field(declaringClass: JClass, slot: nat, decl: FieldDecl)

  /**
   * Which fields a lookup wants. Every kind skips static fields.
   *  - AnyType: every instance field (the filter of `Packet.getFields`);
   *  - OfType(t): declared type exactly `t` (the `Class` overloads);
   *  - OfTypeName(n): type's simple name equals `n` ignoring case (the `String` overloads).
   */
  datatype Selector = AnyType | OfType(t: JType) | OfTypeName(name: string)

  predicate Selects(sel: Selector, d: FieldDecl) {
    && !d.isStatic
    && match sel
       case AnyType => true
       case OfType(t) => d.declaredType == t
       case OfTypeName(n) => EqualsIgnoreCase(d.declaredType.simpleName, n)
  }

  /** The number of classes from `c` up to the top of its superclass chain. */
  function Height(c: JClass): nat {
    match c.superclass
    case None => 1
    case Some(s) => 1 + Height(s)
  }

  /** `c.getDeclaredFields()`: the fields `c` itself declares, in reflection order. */
  function DeclaredFields(c: JClass): (fs: seq<Field>)
    ensures |fs| == |c.declared|
    ensures forall i :: 0 <= i < |fs| ==> fs[i] == Field(c, i, c.declared[i])
  {
    seq(|c.declared|, i requires 0 <= i < |c.declared| => Field(c, i, c.declared[i]))
  }

  /**
   * Every field of the hierarchy: `c`'s own declared fields, then those of its
   * superclass, and so on up the chain.
   */
  function AllFields(c: JClass): seq<Field> {
    DeclaredFields(c) +
      match c.superclass
      case None => []
      case Some(s) => AllFields(s)
  }

  /** The fields of `fs` the selector wants, in the order of `fs`. */
  function Filter(fs: seq<Field>, sel: Selector): seq<Field> {
    if fs == [] then []
    else (if Selects(sel, fs[0].decl) then [fs[0]] else []) + Filter(fs[1..], sel)
  }

  /** The fields of `c`'s whole hierarchy the selector wants, derived-class fields first. */
  function Matching(c: JClass, sel: Selector): seq<Field> {
    Filter(AllFields(c), sel)
  }

  /** The scan over one class's declared fields that returns at the first wanted field. */
  function First(fs: seq<Field>, sel: Selector): (r: Option<Field>)
    ensures r.None? <==> Filter(fs, sel) == []
    ensures r.Some? ==> r.value == Filter(fs, sel)[0]
  {
    if fs == [] then None
    else if Selects(sel, fs[0].decl) then Some(fs[0])
    else First(fs[1..], sel)
  }

  /**
   * `findField`: the first wanted field of `c`, else of its superclass, and so
   * on; null (None) when no class in the chain has one. It is the head of the
   * list `findFields` returns.
   */
  function FindField(c: JClass, sel: Selector): (r: Option<Field>)
    ensures r.None? <==> Matching(c, sel) == []
    ensures r.Some? ==> r.value == Matching(c, sel)[0]
  {
    FilterAppend(DeclaredFields(c), match c.superclass case None => [] case Some(s) => AllFields(s), sel);
    match First(DeclaredFields(c), sel)
    case Some(f) => Some(f)
    case None =>
      match c.superclass
      case None => None
      case Some(s) => FindField(s, sel)
  }

  /**
   * `findFields`: collects the wanted fields `c` declares, in order, then
   * appends what the same search returns for the superclass.
   */
  method FindFields(c: JClass, sel: Selector) returns (fields: seq<Field>)
    ensures fields == Matching(c, sel)
    decreases c
  {
    var own := DeclaredFields(c);
    fields := [];
    for i := 0 to |own|
      invariant fields == Filter(own[..i], sel)
    {
      FilterAppend(own[..i], [own[i]], sel);
      assert own[..i + 1] == own[..i] + [own[i]];
      if Selects(sel, own[i].decl) {
        fields := fields + [own[i]];
      }
    }
    assert own[..|own|] == own;
    match c.superclass {
      case None =>
        FilterAppend(own, [], sel);
        assert AllFields(c) == own + [];
      case Some(s) =>
        var inherited := FindFields(s, sel);
        FilterAppend(own, AllFields(s), sel);
        fields := fields + inherited;
    }
  }

  /** Filtering a concatenation filters each part. */
  lemma {:induction false} FilterAppend(a: seq<Field>, b: seq<Field>, sel: Selector)
    ensures Filter(a + b, sel) == Filter(a, sel) + Filter(b, sel)
  {
    if a != [] {
      FilterAppend(a[1..], b, sel);
      assert (a + b)[1..] == a[1..] + b;
    } else {
      assert a + b == b;
    }
  }

  /** Filtering keeps exactly the wanted elements. */
  lemma {:induction false} FilterMembers(fs: seq<Field>, sel: Selector, f: Field)
    ensures f in Filter(fs, sel) <==> f in fs && Selects(sel, f.decl)
  {
    if fs != [] {
      FilterMembers(fs[1..], sel, f);
      assert fs == [fs[0]] + fs[1..];
    }
  }

  /**
   * The search for `c` is the wanted fields `c` declares, in declaration order,
   * followed by the search for its superclass (empty when there is none).
   */
  lemma MatchingUnfolds(c: JClass, sel: Selector)
    ensures Matching(c, sel) ==
      Filter(DeclaredFields(c), sel) +
        match c.superclass
        case None => []
        case Some(s) => Matching(s, sel)
  {
    FilterAppend(DeclaredFields(c), match c.superclass case None => [] case Some(s) => AllFields(s), sel);
  }

  /**
   * Soundness and completeness: a field is returned exactly when it belongs to
   * the hierarchy, is not static, and has the wanted type.
   */
  lemma MatchingSoundAndComplete(c: JClass, sel: Selector, f: Field)
    ensures f in Matching(c, sel) <==> f in AllFields(c) && Selects(sel, f.decl)
    ensures f in Matching(c, sel) ==> !f.decl.isStatic
  {
    FilterMembers(AllFields(c), sel, f);
  }

  /** The `Class` overloads match by type identity only: a field of any other type, a subtype included, is never returned. */
  lemma ExactTypeOnly(c: JClass, t: JType, f: Field)
    requires f in AllFields(c)
    ensures f in Matching(c, OfType(t)) <==> !f.decl.isStatic && f.decl.declaredType == t
  {
    MatchingSoundAndComplete(c, OfType(t), f);
  }

  /** Filtering by type names equal ignoring case keeps the same fields. */
  lemma {:induction false} FilterTypeNameIgnoresCase(fs: seq<Field>, n1: string, n2: string)
    requires EqualsIgnoreCase(n1, n2)
    ensures Filter(fs, OfTypeName(n1)) == Filter(fs, OfTypeName(n2))
  {
    if fs != [] {
      FilterTypeNameIgnoresCase(fs[1..], n1, n2);
      var s := fs[0].decl.declaredType.simpleName;
      EqualsIgnoreCaseIffSameFold(n1, n2);
      EqualsIgnoreCaseIffSameFold(s, n1);
      EqualsIgnoreCaseIffSameFold(s, n2);
    }
  }

  /**
   * The `String` overloads ignore case: type names equal ignoring case find
   * the same fields, in the same order, and the same first field.
   */
  lemma TypeNameIgnoresCase(c: JClass, n1: string, n2: string)
    requires EqualsIgnoreCase(n1, n2)
    ensures Matching(c, OfTypeName(n1)) == Matching(c, OfTypeName(n2))
    ensures FindField(c, OfTypeName(n1)) == FindField(c, OfTypeName(n2))
  {
    FilterTypeNameIgnoresCase(AllFields(c), n1, n2);
  }

  /** `f` comes before `g` in a hierarchy walk: it is declared lower in the chain, or earlier in the same class. */
  predicate Before(f: Field, g: Field) {
    || Height(f.declaringClass) > Height(g.declaringClass)
    || (Height(f.declaringClass) == Height(g.declaringClass) && f.slot < g.slot)
  }

  /** Strictly increasing in hierarchy-walk order, hence free of repetitions. */
  predicate Ordered(fs: seq<Field>) {
    forall i, j :: 0 <= i < j < |fs| ==> Before(fs[i], fs[j])
  }

  /** Every field of a hierarchy is declared by `c` or by a class above it. */
  lemma {:induction false} AllFieldsHeights(c: JClass, f: Field)
    requires f in AllFields(c)
    ensures Height(f.declaringClass) <= Height(c)
  {
    if f !in DeclaredFields(c) {
      match c.superclass
      case Some(s) => AllFieldsHeights(s, f);
    }
  }

  /** Concatenating two ordered sequences, each element of the first before each of the second, is ordered. */
  lemma OrderedAppend(a: seq<Field>, b: seq<Field>)
    requires Ordered(a) && Ordered(b)
    requires forall f, g :: f in a && g in b ==> Before(f, g)
    ensures Ordered(a + b)
  {
    forall i, j | 0 <= i < j < |a + b| ensures Before((a + b)[i], (a + b)[j]) {
      if j < |a| {
      } else if i < |a| {
        assert (a + b)[i] in a && (a + b)[j] in b;
      } else {
        assert (a + b)[i] == b[i - |a|] && (a + b)[j] == b[j - |a|];
      }
    }
  }

  /** The hierarchy walk lists fields in hierarchy order. */
  lemma {:induction false} AllFieldsOrdered(c: JClass)
    ensures Ordered(AllFields(c))
  {
    match c.superclass {
      case None =>
        assert AllFields(c) == DeclaredFields(c) + [];
      case Some(s) =>
        AllFieldsOrdered(s);
        forall f, g | f in DeclaredFields(c) && g in AllFields(s) ensures Before(f, g) {
          AllFieldsHeights(s, g);
        }
        OrderedAppend(DeclaredFields(c), AllFields(s));
    }
  }

  /** Filtering keeps the order. */
  lemma {:induction false} FilterOrdered(fs: seq<Field>, sel: Selector)
    requires Ordered(fs)
    ensures Ordered(Filter(fs, sel))
  {
    if fs != [] {
      FilterOrdered(fs[1..], sel);
      var rest := Filter(fs[1..], sel);
      forall g | g in rest ensures Before(fs[0], g) {
        FilterMembers(fs[1..], sel, g);
        var k :| 1 <= k < |fs| && fs[k] == g;
      }
      OrderedAppend(if Selects(sel, fs[0].decl) then [fs[0]] else [], rest);
    }
  }

  /**
   * Derived-class fields come before inherited ones and, within one class, in
   * declaration order; in particular no field is returned twice.
   */
  lemma MatchingOrdered(c: JClass, sel: Selector)
    ensures Ordered(Matching(c, sel))
    ensures forall i, j :: 0 <= i < |Matching(c, sel)| && 0 <= j < |Matching(c, sel)| && i != j ==>
      Matching(c, sel)[i] != Matching(c, sel)[j]
  {
    AllFieldsOrdered(c);
    FilterOrdered(AllFields(c), sel);
    var m := Matching(c, sel);
    forall i, j | 0 <= i < |m| && 0 <= j < |m| && i != j ensures m[i] != m[j] {
      if i < j { assert Before(m[i], m[j]); } else { assert Before(m[j], m[i]); }
    }
  }

  /** Every field a narrower search returns is among the instance fields of the hierarchy. */
  lemma SelectedAreInstanceFields(c: JClass, sel: Selector, f: Field)
    requires f in Matching(c, sel)
    ensures f in Matching(c, AnyType)
  {
    MatchingSoundAndComplete(c, sel, f);
    MatchingSoundAndComplete(c, AnyType, f);
  }
}
