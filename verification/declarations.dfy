/** `MethodInfo.GetDeclaraction`: the C#-like declaration text of a method,
    `[visibility] [modifier] [return type] [name][<generic arguments>]([parameters])`.

    How a type or a parameter is rendered (`GetShortDeclaraction` and
    `ParameterInfo.GetDeclaraction`) is not part of this model: the renderer
    receives those as functions and treats them as opaque. */
module Declarations {
  import Types

  /** The access field of `MethodAttributes`. `IsPublic`, `IsFamily`,
      `IsAssembly` and `IsPrivate` each test for one value of it, so at most
      one of them holds. */
  datatype Access = PrivateScope | Private | FamANDAssem | Assembly | Family | FamORAssem | Public

  /** What the renderer reads of a `MethodInfo`: `T` stands for a `Type`,
      `P` for a `ParameterInfo`. */
  datatype Method<T, P> = Method(
    access: Access,
    isAbstract: bool,
    isVirtual: bool,
    isStatic: bool,
    declaringType: Types.TypeId,
    baseDefinitionDeclaringType: Types.TypeId,
    returnType: T,
    name: string,
    isGenericMethod: bool,
    genericArguments: seq<T>,
    parameters: seq<P>)

  /** The visibility word and its trailing space. Public, family, assembly and
      private each have their own keyword; every other access level, including
      `FamANDAssem` and `PrivateScope`, is rendered `protected internal`. */
  function Visibility(a: Access): (r: string)
    ensures |r| > 0 && r[|r| - 1] == ' '
    ensures r == "public " <==> a == Public
    ensures r == "protected " <==> a == Family
    ensures r == "internal " <==> a == Assembly
    ensures r == "private " <==> a == Private
    ensures r == "protected internal " <==> a.PrivateScope? || a.FamANDAssem? || a.FamORAssem?
  {
    if a == Public then "public "
    else if a == Family then "protected "
    else if a == Assembly then "internal "
    else if a == Private then "private "
    else "protected internal "
  }

  /** The method overrides one declared elsewhere: its base definition lives
      in another type. */
  predicate Overrides<T, P>(m: Method<T, P>) {
    m.baseDefinitionDeclaringType != m.declaringType
  }

  /** At most one modifier and its trailing space, by precedence: `abstract`,
      then `override`, then `virtual`, then `static`. */
  function Modifier<T, P>(m: Method<T, P>): (r: string)
    ensures r == "" || r[|r| - 1] == ' '
    ensures r == "abstract " <==> m.isAbstract
    ensures r == "override " <==> !m.isAbstract && Overrides(m)
    ensures r == "virtual " <==> !m.isAbstract && !Overrides(m) && m.isVirtual
    ensures r == "static " <==> !m.isAbstract && !Overrides(m) && !m.isVirtual && m.isStatic
    ensures r == "" <==> !m.isAbstract && !Overrides(m) && !m.isVirtual && !m.isStatic
  {
    if m.isAbstract then "abstract "
    else if Overrides(m) then "override "
    else if m.isVirtual then "virtual "
    else if m.isStatic then "static "
    else ""
  }

  /** Each element of `xs` rendered by `f`, in order (`Select`). */
  function Render<X>(f: X -> string, xs: seq<X>): (r: seq<string>)
    ensures |r| == |xs|
    ensures forall i :: 0 <= i < |xs| ==> r[i] == f(xs[i])
  {
    seq(|xs|, i requires 0 <= i < |xs| => f(xs[i]))
  }

  /** `string.Join(sep, xs)`: the elements with `sep` between neighbours. */
  function Join(sep: string, xs: seq<string>): string
    decreases |xs|
  {
    if |xs| == 0 then ""
    else if |xs| == 1 then xs[0]
    else xs[0] + sep + Join(sep, xs[1..])
  }

  /** Where element `i` starts in `Join(sep, xs)`: after every earlier
      element and one separator for each of them. */
  function Offset(sep: string, xs: seq<string>, i: nat): nat
    requires i <= |xs|
  {
    if i == 0 then 0 else Offset(sep, xs, i - 1) + |xs[i - 1]| + |sep|
  }

  /** Offsets past the first element are the offsets in the rest, shifted by
      the first element and one separator. */
  lemma {:induction false} OffsetOfRest(sep: string, xs: seq<string>, i: nat)
    requires 1 <= i <= |xs|
    ensures Offset(sep, xs, i) == |xs[0]| + |sep| + Offset(sep, xs[1..], i - 1)
  {
    if i > 1 {
      OffsetOfRest(sep, xs, i - 1);
    }
  }

  /** A slice of the left operand of a concatenation. */
  lemma SliceLeft(a: string, b: string, i: nat, j: nat)
    requires i <= j <= |a|
    ensures (a + b)[i..j] == a[i..j]
  {
  }

  /** A slice of the right operand of a concatenation, shifted past the
      left one. */
  lemma SliceRight(a: string, b: string, i: nat, j: nat)
    requires i <= j <= |b|
    ensures (a + b)[|a| + i..|a| + j] == b[i..j]
  {
  }

  /** A join of two or more elements is the first, a separator, and the
      join of the rest. */
  lemma JoinCons(sep: string, xs: seq<string>)
    requires |xs| > 1
    ensures Join(sep, xs) == (xs[0] + sep) + Join(sep, xs[1..])
  {
  }

  /** The join ends right after its last element. */
  lemma {:induction false} JoinLength(sep: string, xs: seq<string>)
    requires |xs| > 0
    ensures |Join(sep, xs)| == Offset(sep, xs, |xs| - 1) + |xs[|xs| - 1]|
    decreases |xs|
  {
    if |xs| > 1 {
      JoinCons(sep, xs);
      JoinLength(sep, xs[1..]);
      OffsetOfRest(sep, xs, |xs| - 1);
    }
  }

  /** Element `i` occupies the text of the join from `Offset(i)`. */
  lemma {:induction false} JoinElement(sep: string, xs: seq<string>, i: nat)
    requires i < |xs|
    ensures Offset(sep, xs, i) + |xs[i]| <= |Join(sep, xs)|
    ensures Join(sep, xs)[Offset(sep, xs, i)..Offset(sep, xs, i) + |xs[i]|] == xs[i]
    decreases i
  {
    if |xs| > 1 {
      JoinCons(sep, xs);
      var rest := Join(sep, xs[1..]);
      if i == 0 {
        SliceLeft(xs[0], sep + rest, 0, |xs[0]|);
        assert Join(sep, xs) == xs[0] + (sep + rest);
        assert xs[0][0..|xs[0]|] == xs[0];
      } else {
        JoinElement(sep, xs[1..], i - 1);
        OffsetOfRest(sep, xs, i);
        var o := Offset(sep, xs[1..], i - 1);
        SliceRight(xs[0] + sep, rest, o, o + |xs[i]|);
      }
    }
  }

  /** Between element `i` and element `i + 1` of the join lies exactly the
      separator. */
  lemma {:induction false} JoinSeparator(sep: string, xs: seq<string>, i: nat)
    requires i + 1 < |xs|
    ensures Offset(sep, xs, i + 1) <= |Join(sep, xs)|
    ensures Join(sep, xs)[Offset(sep, xs, i) + |xs[i]|..Offset(sep, xs, i + 1)] == sep
    decreases i
  {
    JoinCons(sep, xs);
    var rest := Join(sep, xs[1..]);
    if i == 0 {
      assert Offset(sep, xs, 1) == |xs[0]| + |sep|;
      SliceLeft(xs[0] + sep, rest, |xs[0]|, |xs[0]| + |sep|);
      SliceRight(xs[0], sep, 0, |sep|);
      assert sep[0..|sep|] == sep;
    } else {
      var a := xs[0] + sep;
      JoinSeparator(sep, xs[1..], i - 1);
      OffsetOfRest(sep, xs, i);
      OffsetOfRest(sep, xs, i + 1);
      assert xs[1..][i - 1] == xs[i];
      var o := Offset(sep, xs[1..], i - 1) + |xs[i]|;
      assert Offset(sep, xs, i) + |xs[i]| == |a| + o;
      assert Offset(sep, xs, i + 1) == |a| + o + |sep|;
      SliceRight(a, rest, o, o + |sep|);
    }
  }

  /** `Join` lays the elements out in order: element `i` occupies the text
      from `Offset(i)`, the separator fills the gap to the next element, and
      the text ends with the last element. */
  lemma JoinLayout(sep: string, xs: seq<string>, i: nat)
    requires i < |xs|
    ensures Offset(sep, xs, i) + |xs[i]| <= |Join(sep, xs)|
    ensures Join(sep, xs)[Offset(sep, xs, i)..Offset(sep, xs, i) + |xs[i]|] == xs[i]
    ensures i + 1 < |xs| ==>
      && Offset(sep, xs, i + 1) <= |Join(sep, xs)|
      && Join(sep, xs)[Offset(sep, xs, i) + |xs[i]|..Offset(sep, xs, i + 1)] == sep
    ensures i + 1 == |xs| ==> Offset(sep, xs, i) + |xs[i]| == |Join(sep, xs)|
  {
    JoinElement(sep, xs, i);
    if i + 1 < |xs| {
      JoinSeparator(sep, xs, i);
    } else {
      JoinLength(sep, xs);
    }
  }

  /** `Join` of no elements is empty, of one element is that element. */
  lemma JoinShort(sep: string, x: string)
    ensures Join(sep, []) == ""
    ensures Join(sep, [x]) == x
  {
  }

  /** The `<...>` part: present only for a generic method. */
  function GenericPart<T, P>(m: Method<T, P>, typeText: T -> string): (r: string)
    ensures m.isGenericMethod <==> r != ""
    ensures m.isGenericMethod ==>
      && |r| >= 2 && r[0] == '<' && r[|r| - 1] == '>'
      && r[1..|r| - 1] == Join(", ", Render(typeText, m.genericArguments))
  {
    if m.isGenericMethod then "<" + Join(", ", Render(typeText, m.genericArguments)) + ">" else ""
  }

  /** The parenthesised parameter list. */
  function ParameterPart<T, P>(m: Method<T, P>, parameterText: P -> string): (r: string)
    ensures |r| >= 2 && r[0] == '(' && r[|r| - 1] == ')'
    ensures r[1..|r| - 1] == Join(", ", Render(parameterText, m.parameters))
  {
    "(" + Join(", ", Render(parameterText, m.parameters)) + ")"
  }

  /** `GetDeclaraction()`. */
  function Declaration<T, P>(m: Method<T, P>, typeText: T -> string, parameterText: P -> string): (r: string)
    ensures |r| > 0 && r[|r| - 1] == ')'
    ensures |Visibility(m.access)| <= |r| && r[..|Visibility(m.access)|] == Visibility(m.access)
  {
    Visibility(m.access) + Modifier(m) + typeText(m.returnType) + " " + m.name
    + GenericPart(m, typeText) + ParameterPart(m, parameterText)
  }

  /** The declaration splits into its parts in order: visibility, modifier,
      return type, one space, name, then the generic part (only for a generic
      method) and the parameter list. Making a method generic inserts exactly
      its `<...>` part between the name and the parameter list. */
  lemma DeclarationParts<T, P>(m: Method<T, P>, typeText: T -> string, parameterText: P -> string)
    ensures
      var head := Visibility(m.access) + Modifier(m) + typeText(m.returnType) + " " + m.name;
      var r := Declaration(m, typeText, parameterText);
      && |head| <= |r|
      && r[..|head|] == head
      && r[|r| - |ParameterPart(m, parameterText)|..] == ParameterPart(m, parameterText)
      && (m.isGenericMethod <==> |r| > |head| + |ParameterPart(m, parameterText)|)
      && r[|head|..|r| - |ParameterPart(m, parameterText)|] == GenericPart(m, typeText)
      && (!m.isGenericMethod ==> r == head + ParameterPart(m, parameterText))
  {
    var head := Visibility(m.access) + Modifier(m) + typeText(m.returnType) + " " + m.name;
    ThreeParts(head, GenericPart(m, typeText), ParameterPart(m, parameterText));
  }

  /** A concatenation of three strings, cut back into its parts. */
  lemma ThreeParts(a: string, b: string, c: string)
    ensures
      var r := a + b + c;
      && |r| == |a| + |b| + |c|
      && r[..|a|] == a
      && r[|a|..|r| - |c|] == b
      && r[|r| - |c|..] == c
  {
  }

  /** An abstract method is never rendered `override`, `virtual` or `static`,
      and exactly one visibility word is emitted for every access level. */
  lemma ModifierExclusive<T, P>(m: Method<T, P>)
    ensures m.isAbstract ==> Modifier(m) != "override " && Modifier(m) != "virtual " && Modifier(m) != "static "
    ensures Visibility(m.access) in {"public ", "protected ", "internal ", "private ", "protected internal "}
  {
  }

  /** In a bracketed join, element `i` sits one position past its offset. */
  lemma ElementInBrackets(sep: string, xs: seq<string>, i: nat)
    requires i < |xs|
    ensures
      var o := 1 + Offset(sep, xs, i);
      var b := "(" + Join(sep, xs) + ")";
      && o + |xs[i]| < |b|
      && b[o..o + |xs[i]|] == xs[i]
  {
    var jn := Join(sep, xs);
    var o := Offset(sep, xs, i);
    JoinElement(sep, xs, i);
    SliceLeft("(" + jn, ")", 1 + o, 1 + o + |xs[i]|);
    SliceRight("(", jn, o, o + |xs[i]|);
  }

  /** Each parameter's text appears in the parameter list in declaration
      order: parameter `i` sits at `Offset(i)` after the `(`. */
  lemma ParametersInOrder<T, P>(m: Method<T, P>, parameterText: P -> string, i: nat)
    requires i < |m.parameters|
    ensures
      var ps := Render(parameterText, m.parameters);
      var o := 1 + Offset(", ", ps, i);
      var pp := ParameterPart(m, parameterText);
      && o + |parameterText(m.parameters[i])| < |pp|
      && pp[o..o + |parameterText(m.parameters[i])|] == parameterText(m.parameters[i])
  {
    var ps := Render(parameterText, m.parameters);
    ElementInBrackets(", ", ps, i);
    assert ps[i] == parameterText(m.parameters[i]);
  }
}
