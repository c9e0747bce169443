// First characters at which the parsing functions fail.
module Refusals {
  import opened CStrings
  import opened Trace
  import opened TraceTheorems
  import G = Grammar

  // The parsing function fails at i and prints nothing on the way.
  ghost predicate Refuses(p: G.Parse, i: nat)
  {
    p.Reject? && p.next == i && Silent(p.t)
  }

  // No name of one component starts with c.
  predicate StartsNoComponent(c: char)
  {
    !IsLower(c) && !IsDigit(c) && c !in {'C', 'D', 'L', 'S'}
  }

  // No name in a nested name starts with c.
  predicate StartsNoName(c: char)
  {
    StartsNoComponent(c) && c != 'T'
  }

  // No type, and so no name and no literal, starts with c.
  predicate StartsNoType(c: char)
  {
    StartsNoName(c) && c !in {'A', 'F', 'G', 'K', 'M', 'N', 'O', 'P', 'R', 'U', 'V', 'Z'}
  }

  // No template argument starts with c.
  predicate StartsNoArgument(c: char)
  {
    StartsNoType(c) && c !in {'I', 'J', 'X'}
  }

  lemma UnscopedNameRefuses(m: string, i: nat)
    requires i <= |m| && StartsNoComponent(At(m, i))
    ensures Refuses(G.UnqualifiedName(m, i), i) && Refuses(G.UnscopedName(m, i), i)
  {
    assert Refuses(G.OperatorName(m, i), i);
    assert Refuses(G.CtorDtorName(m, i), i);
    assert Refuses(G.SourceName(m, i), i);
    assert Refuses(G.LocalSourceName(m, i), i);
    assert Refuses(G.StdName(m, i), i);
  }

  lemma TemplateParamRefuses(m: string, i: nat)
    requires i <= |m| && At(m, i) != 'T'
    ensures Refuses(G.TemplateParam(m, i), i)
  {
  }

  lemma SubstitutionRefuses(m: string, i: nat)
    requires i <= |m| && At(m, i) != 'S'
    ensures Refuses(G.Substitution(m, i), i)
  {
  }

  lemma PrefixItemRefuses(m: string, i: nat)
    requires i <= |m| && StartsNoName(At(m, i))
    ensures Refuses(G.PrefixItem(m, i), i) && Refuses(G.UnscopedTemplateName(m, i), i)
  {
    TemplateParamRefuses(m, i);
    SubstitutionRefuses(m, i);
    UnscopedNameRefuses(m, i);
  }

  lemma TemplateArgsRefuses(m: string, i: nat)
    requires i <= |m| && At(m, i) != 'I'
    ensures Refuses(G.TemplateArgs(m, i), i)
  {
  }

  lemma AbiTagsRefuses(m: string, i: nat)
    requires i <= |m| && At(m, i) != 'B'
    ensures Refuses(G.AbiTags(m, i), i)
  {
    assert Refuses(G.AbiTag(m, i), i);
    assert Refuses(G.Call(G.FAbiTag, m, i), i);
    assert Refuses(G.OneOrMore(G.FAbiTag, m, i), i);
  }

  lemma NameRefuses(m: string, i: nat)
    requires i <= |m| && StartsNoComponent(At(m, i)) && At(m, i) !in {'N', 'Z'}
    ensures Refuses(G.Name(m, i), i)
  {
    SubstitutionRefuses(m, i);
    UnscopedNameRefuses(m, i);
    assert Refuses(G.NestedName(m, i), i);
    assert Refuses(G.LocalEntity(m, i), i) && Refuses(G.LocalString(m, i), i);
    assert Refuses(G.LocalName(m, i), i);
    assert Refuses(G.UnscopedTemplateName(m, i), i);
    assert Refuses(G.TemplateName(m, i), i);
  }

  // No builtin type starts with such a character; all start with a lower-case letter.
  lemma BuiltinLetters(k: nat)
    requires k < |BuiltinTypes.Entries()|
    ensures IsLower(At(BuiltinTypes.Entries()[k].abbrev, 0))
    ensures At(BuiltinTypes.Entries()[k].abbrev, 0) !in {'k', 'p', 'q', 'r', 'u'}
  {
  }

  predicate IsBuiltin(c: char) { FindBuiltin(c) < |BuiltinTypes.Entries()| }

  lemma BuiltinIsLower(c: char)
    requires IsBuiltin(c)
    ensures IsLower(c) && c !in {'k', 'p', 'q', 'r', 'u'}
  {
    BuiltinLetters(FindBuiltin(c));
  }

  lemma QualifiersRefuse(m: string, i: nat)
    requires i <= |m| && At(m, i) !in {'r', 'V', 'K', 'O', 'P', 'R', 'C', 'G', 'D', 'U'}
    ensures Refuses(G.QualifiedType(m, i), i) && Refuses(G.IndirectType(m, i), i)
    ensures Refuses(G.PackExpansion(m, i), i) && Refuses(G.Decltype(m, i), i) && Refuses(G.VendorType(m, i), i)
  {
  }

  lemma TypeRefuses(m: string, i: nat)
    requires i <= |m| && StartsNoType(At(m, i))
    ensures Refuses(G.Type(m, i), i)
  {
    hide G.Name, G.Substitution, G.TemplateParam, Find;
    QualifiersRefuse(m, i);
    NameRefuses(m, i);
    TemplateParamRefuses(m, i);
    SubstitutionRefuses(m, i);
    if i < |m| && IsBuiltin(m[i]) {
      BuiltinIsLower(m[i]);
    }
    assert Refuses(G.MarkedType(m, i), i) && Refuses(G.BuiltinType(m, i), i);
    assert Refuses(G.FunctionType(m, i), i) && Refuses(G.ClassEnumType(m, i), i);
    assert Refuses(G.FixedArray(m, i), i) && Refuses(G.DependentArray(m, i), i);
    assert Refuses(G.ArrayType(m, i), i) && Refuses(G.PointerToMemberType(m, i), i);
    assert Refuses(G.UnmarkedType(m, i), i);
    assert Refuses(G.TemplateTemplateParam(m, i), i);
    assert Refuses(G.TemplateTemplateType(m, i), i);
  }

  lemma LiteralRefuses(m: string, i: nat)
    requires i <= |m| && At(m, i) != 'L'
    ensures Refuses(G.ExprPrimary(m, i), i)
  {
    assert Refuses(G.IntegerLiteral(m, i), i) && Refuses(G.FloatLiteral(m, i), i);
    assert Refuses(G.NameLiteral(m, i), i) && Refuses(G.EncodingLiteral(m, i), i);
  }

  lemma TemplateArgRefuses(m: string, i: nat)
    requires i <= |m| && StartsNoArgument(At(m, i))
    ensures Refuses(G.TemplateArg(m, i), i)
  {
    TypeRefuses(m, i);
    assert Refuses(G.ArgumentPack(m, i), i) && Refuses(G.ExpressionArg(m, i), i);
    LiteralRefuses(m, i);
    assert Refuses(G.TypeOrLiteral(m, i), i);
  }

  // No expression starts with c.
  predicate StartsNoExpression(c: char) { c != 'T' && c != 'L' && !IsLower(c) }

  lemma ExpressionRefuses(m: string, i: nat)
    requires i <= |m| && StartsNoExpression(At(m, i))
    ensures Refuses(G.Expression(m, i), i)
  {
    hide G.TemplateParam, G.ExprPrimary;
    TemplateParamRefuses(m, i);
    LiteralRefuses(m, i);
    assert Refuses(G.OperatorName(m, i), i);
    hide G.OperatorName;
    assert Refuses(G.Ternary(m, i), i) && Refuses(G.Binary(m, i), i) && Refuses(G.Unary(m, i), i);
    hide G.Ternary, G.Binary, G.Unary;
    assert Refuses(G.SizeofType(m, i), i) && Refuses(G.ScopedTemplate(m, i), i) && Refuses(G.Scoped(m, i), i);
  }

  // No operator and no special member starts with a digit.
  lemma DigitRefused(m: string, i: nat)
    requires i <= |m| && IsDigit(At(m, i))
    ensures Refuses(G.OperatorName(m, i), i) && Refuses(G.CtorDtorName(m, i), i)
    ensures Refuses(G.TemplateParam(m, i), i) && Refuses(G.Substitution(m, i), i)
  {
    TemplateParamRefuses(m, i);
    SubstitutionRefuses(m, i);
    assert Refuses(G.CastOperator(m, i), i) && Refuses(G.VendorOperator(m, i), i) && Refuses(G.OperatorSymbol(m, i), i);
  }

  lemma ParametersRefused(m: string, i: nat)
    requires i <= |m| && StartsNoType(At(m, i))
    ensures Refuses(G.BareFunctionType(m, i), i)
  {
    TypeRefuses(m, i);
    assert Refuses(G.Call(G.FType, m, i), i);
    assert Refuses(G.OneOrMore(G.FType, m, i), i);
  }
}
