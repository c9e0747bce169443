// Literals, template arguments and expressions: where their parts are read, so are they.
module ReadingExpressions {
  import opened CStrings
  import opened Decimals
  import opened Options
  import opened Reading
  import opened ReadingNames
  import opened ReadingParts
  import opened ReadingTypes
  import opened Refusals
  import opened Tables
  import opened Trace
  import opened TraceTheorems
  import A = Abi
  import G = Grammar

  // ----- literals ------------------------------------------------------------------------------

  // L, a type, a number and E.
  lemma IntegerRead(m: string, i: nat, middle: nat, end: nat, d: Ideal, ps: seq<string>)
    requires i < |m| && m[i] == 'L' && middle <= |m| && Reads(G.Type(m, i + 1), middle, d, ps)
    requires Takes(G.Number(m, middle), end) && At(m, end) == 'E'
    ensures Reads(G.IntegerLiteral(m, i), end + 1, d, ps)
  {
    hide G.Type, G.Number, Meaning, Says;
    var a, b := G.Token(m, i, 'L'), G.Type(m, i + 1);
    TokenRead(m, i, 'L');
    SkipAndRead(a, b, i + 1, middle, d, ps);
    SkippedQualifiers(G.Number(m, middle), end);
    ReadAndSkip(a.Before(b), G.Number(m, middle), middle, end, d, ps);
    TokenRead(m, end, 'E');
    ReadAndSkip(a.Before(b).Before(G.Number(m, middle)), G.Token(m, end, 'E'), end, end + 1, d, ps);
    assert G.IntegerLiteral(m, i) == a.Before(b).Before(G.Number(m, middle)).Before(G.Token(m, end, 'E'));
  }

  lemma IntegerIsLiteral(m: string, i: nat, next: nat, d: Ideal, ps: seq<string>)
    requires i <= |m| && Reads(G.IntegerLiteral(m, i), next, d, ps)
    ensures Reads(G.ExprPrimary(m, i), next, d, ps)
  {
    hide G.IntegerLiteral;
  }

  // L, a type, hexadecimal digits and E: decimal digits alone are read as a number.
  lemma FloatRead(m: string, i: nat, middle: nat, digits: string, d: Ideal, ps: seq<string>)
    requires i < |m| && m[i] == 'L' && middle <= |m| && Reads(G.Type(m, i + 1), middle, d, ps)
    requires A.IsFloat(digits) && HasPrefix(m, middle, digits + "E")
    ensures Reads(G.ExprPrimary(m, i), middle + |digits| + 1, d, ps)
  {
    hide G.Type, HasPrefix, Meaning, Says, G.Number;
    var end := middle + |digits|;
    DigitsHere(m, middle, digits);
    var n := G.Number(m, middle);
    if Takes(n, end) {
      IntegerRead(m, i, middle, end, d, ps);
      IntegerIsLiteral(m, i, end + 1, d, ps);
    } else {
      assert Fails(G.IntegerLiteral(m, i));
      hide G.IntegerLiteral;
      var a, b := G.Token(m, i, 'L'), G.Type(m, i + 1);
      TokenRead(m, i, 'L');
      SkipAndRead(a, b, i + 1, middle, d, ps);
      RunRead(m, middle, end, IsFloatChar);
      ReadAndSkip(a.Before(b), G.CharRun(m, middle, IsFloatChar), middle, end, d, ps);
      TokenRead(m, end, 'E');
      var c := a.Before(b).Before(G.CharRun(m, middle, IsFloatChar));
      ReadAndSkip(c, G.Token(m, end, 'E'), end, end + 1, d, ps);
      assert G.FloatLiteral(m, i) == c.Before(G.Token(m, end, 'E'));
      ReadSecond(G.IntegerLiteral(m, i), G.FloatLiteral(m, i), end + 1, d, ps);
    }
  }

  lemma DigitsHere(m: string, i: nat, digits: string)
    requires A.IsFloat(digits) && HasPrefix(m, i, digits + "E")
    ensures var end := i + |digits|;
      && RunEnd(m, i, IsFloatChar) == end && At(m, end) == 'E' && G.Number(m, i).next <= end
      && (G.Number(m, i).Accept? && G.Number(m, i).next != end ==> At(m, G.Number(m, i).next) != 'E')
  {
    hide HasPrefix;
    var end := i + |digits|;
    PrefixParts(m, i, digits, "E");
    PrefixChars(m, i, digits);
    PrefixChar(m, end, "E");
    forall k | i <= k < end
      ensures IsFloatChar(m[k])
    {
      assert m[k] == digits[k - i] && IsFloatChar(digits[k - i]);
    }
    RunEndIs(m, i, end, IsFloatChar);
    assert IsFloatChar(m[i]);
    assert RunEnd(m, i, IsDigit) <= end;
  }

  // An L with an underscore behind it starts no literal of a type.
  lemma NoTypedLiteral(m: string, i: nat)
    requires i + 1 < |m| && m[i] == 'L' && m[i + 1] == '_'
    ensures Fails(G.IntegerLiteral(m, i)) && Fails(G.FloatLiteral(m, i))
    ensures Fails(G.IntegerLiteral(m, i).Before(G.FloatLiteral(m, i)))
  {
    hide G.Type;
    TypeRefuses(m, i + 1);
  }

  // L, _Z, an encoding and E.
  lemma ExternalRead(m: string, i: nat, next: nat, d: Ideal, ps: seq<string>)
    requires HasPrefix(m, i, "L_Z") && Reads(G.Encoding(m, i + 3), next, d, ps) && At(m, next) == 'E'
    ensures At(m, i) == 'L' && Reads(G.ExprPrimary(m, i), next + 1, d, ps)
  {
    hide G.Type, G.Encoding, G.IntegerLiteral, G.FloatLiteral, HasPrefix, Meaning, Says, Ends;
    PrefixChars(m, i, "L_Z");
    assert m[i] == 'L' && m[i + 1] == '_' && m[i + 2] == 'Z';
    NoTypedLiteral(m, i);
    TokensHere(m, i + 1, '_', 'Z');
    SkipAndRead(G.TwoTokens(m, i + 1, '_', 'Z'), G.Encoding(m, i + 3), i + 3, next, d, ps);
    assert Reads(G.MangledName(m, i + 1), next, d, ps);
    hide G.MangledName;
    var a, b := G.Token(m, i, 'L'), G.MangledName(m, i + 1);
    TokenRead(m, i, 'L');
    SkipAndRead(a, b, i + 1, next, d, ps);
    TokenRead(m, next, 'E');
    ReadAndSkip(a.Before(b), G.Token(m, next, 'E'), next, next + 1, d, ps);
    assert G.NameLiteral(m, i) == a.Before(b).Before(G.Token(m, next, 'E'));
    hide G.NameLiteral;
    ReadSecond(G.IntegerLiteral(m, i).Before(G.FloatLiteral(m, i)), G.NameLiteral(m, i), next + 1, d, ps);
  }

  // LZ, an encoding and E.  If another E follows, this is no literal of a local type.
  lemma UnprefixedRead(m: string, i: nat, next: nat, d: Ideal, ps: seq<string>)
    requires HasPrefix(m, i, "LZ") && Reads(G.Encoding(m, i + 2), next, d, ps) && next + 1 < |m|
    requires m[next] == 'E' && m[next + 1] == 'E'
    ensures At(m, i) == 'L' && Reads(G.ExprPrimary(m, i), next + 1, d, ps)
  {
    hide G.Type, G.Encoding, HasPrefix, Meaning, Says;
    PrefixChar(m, i, "LZ");
    NoLocalType(m, i + 1, next);
    assert Fails(G.IntegerLiteral(m, i)) && Fails(G.FloatLiteral(m, i)) && Fails(G.NameLiteral(m, i));
    hide G.IntegerLiteral, G.FloatLiteral, G.NameLiteral;
    TokensHere(m, i, 'L', 'Z');
    var a := G.TwoTokens(m, i, 'L', 'Z');
    SkipAndRead(a, G.Encoding(m, i + 2), i + 2, next, d, ps);
    TokenRead(m, next, 'E');
    ReadAndSkip(a.Before(G.Encoding(m, i + 2)), G.Token(m, next, 'E'), next, next + 1, d, ps);
    assert G.EncodingLiteral(m, i) == a.Before(G.Encoding(m, i + 2)).Before(G.Token(m, next, 'E'));
    hide G.EncodingLiteral;
    var x := G.IntegerLiteral(m, i).Before(G.FloatLiteral(m, i)).Before(G.NameLiteral(m, i));
    ReadSecond(x, G.EncodingLiteral(m, i), next + 1, d, ps);
  }

  lemma NoLocalType(m: string, i: nat, next: nat)
    requires i < |m| && m[i] == 'Z' && Takes(G.Encoding(m, i + 1), next) && next + 1 < |m|
    requires m[next] == 'E' && m[next + 1] == 'E'
    ensures Fails(G.Type(m, i))
  {
    NoLocalName(m, i, next);
    hide G.Name, G.MarkedType, G.BuiltinType, G.FunctionType, G.ArrayType, G.PointerToMemberType;
    NoMark(m, i);
    NoFunction(m, i);
    NoClass(m, i);
    NoArrayOrMember(m, i);
    SubstitutionRefuses(m, i);
    TemplateParamRefuses(m, i);
    assert Fails(G.UnmarkedType(m, i));
    hide G.UnmarkedType, G.Substitution, G.TemplateParam;
    assert Fails(G.TemplateTemplateParam(m, i));
    assert Fails(G.TemplateTemplateType(m, i));
  }

  lemma NoLocalName(m: string, i: nat, next: nat)
    requires i < |m| && m[i] == 'Z' && Takes(G.Encoding(m, i + 1), next) && next + 1 < |m|
    requires m[next] == 'E' && m[next + 1] == 'E'
    ensures Fails(G.Name(m, i))
  {
    hide G.Encoding, G.Name;
    NameRefuses(m, next + 1);
    assert Fails(G.NestedName(m, i)) && Fails(G.LocalEntity(m, i)) && Fails(G.LocalString(m, i));
    hide G.NestedName, G.LocalEntity, G.LocalString;
    UnscopedNameRefuses(m, i);
    SubstitutionRefuses(m, i);
    hide G.UnscopedName, G.Substitution;
    assert Fails(G.UnscopedTemplateName(m, i)) && Fails(G.TemplateName(m, i));
    NameFails(m, i);
  }

  lemma NameFails(m: string, i: nat)
    requires i <= |m| && Fails(G.NestedName(m, i)) && Fails(G.LocalEntity(m, i)) && Fails(G.LocalString(m, i))
    requires Fails(G.TemplateName(m, i)) && Fails(G.UnscopedName(m, i))
    ensures Fails(G.Name(m, i))
  {
    hide G.NestedName, G.LocalEntity, G.LocalString, G.TemplateName, G.UnscopedName;
    assert Fails(G.LocalName(m, i));
  }

  // ----- template arguments -------------------------------------------------------------------------

  lemma ArgIsType(m: string, i: nat, next: nat)
    requires i <= |m| && At(m, i) !in {'I', 'J'} && Takes(G.Type(m, i), next)
    ensures Takes(G.TemplateArg(m, i), next)
  {
    hide G.Type;
    assert Fails(G.ArgumentPack(m, i));
  }

  // An L that is no local name starts no type.
  lemma LiteralIsNoType(m: string, i: nat)
    requires i <= |m| && At(m, i) == 'L' && !IsDigit(At(m, i + 1)) && At(m, i + 1) != 'n'
    ensures Fails(G.Type(m, i))
  {
    LiteralIsNoName(m, i);
    hide G.Name, G.MarkedType, G.BuiltinType, G.FunctionType, G.ArrayType, G.PointerToMemberType;
    NoMark(m, i);
    NoFunction(m, i);
    NoClass(m, i);
    NoArrayOrMember(m, i);
    SubstitutionRefuses(m, i);
    TemplateParamRefuses(m, i);
    assert Fails(G.UnmarkedType(m, i));
    hide G.UnmarkedType, G.Substitution, G.TemplateParam;
    assert Fails(G.TemplateTemplateParam(m, i));
    assert Fails(G.TemplateTemplateType(m, i));
  }

  lemma LiteralIsNoName(m: string, i: nat)
    requires i <= |m| && At(m, i) == 'L' && !IsDigit(At(m, i + 1)) && At(m, i + 1) != 'n'
    ensures Fails(G.Name(m, i))
  {
    LetterRefused(m, i);
    if i < |m| {
      assert Fails(G.SourceName(m, i + 1));
    }
    hide G.SourceName, G.OperatorName, G.CtorDtorName;
    assert Fails(G.LocalSourceName(m, i));
    assert Fails(G.UnqualifiedName(m, i)) && Fails(G.StdName(m, i));
    hide G.UnqualifiedName, G.StdName;
    SubstitutionRefuses(m, i);
    assert Fails(G.UnscopedName(m, i)) && Fails(G.UnscopedTemplateName(m, i));
    hide G.UnscopedName, G.UnscopedTemplateName;
    NotScoped(m, i);
  }

  lemma ArgIsLiteral(m: string, i: nat, next: nat)
    requires i <= |m| && At(m, i) == 'L' && !IsDigit(At(m, i + 1)) && At(m, i + 1) != 'n'
    requires Takes(G.ExprPrimary(m, i), next)
    ensures Takes(G.TemplateArg(m, i), next)
  {
    LiteralIsNoType(m, i);
    hide G.Type, G.ExprPrimary;
    assert Fails(G.ArgumentPack(m, i));
  }

  // I or J, arguments and E.
  lemma ArgIsPack(m: string, i: nat, next: nat)
    requires i < |m| && m[i] in {'I', 'J'} && Takes(G.ZeroOrMore(G.FTemplateArg, m, i + 1), next) && At(m, next) == 'E'
    ensures Takes(G.TemplateArg(m, i), next + 1)
  {
    hide G.ZeroOrMore;
    var cls := "IJ";
    assert cls[0] == 'I' && cls[1] == 'J';
    assert Takes(G.ArgumentPack(m, i), next + 1);
  }

  // X, an expression and E.
  lemma ArgIsExpression(m: string, i: nat, next: nat)
    requires i < |m| && m[i] == 'X' && Takes(G.Expression(m, i + 1), next) && At(m, next) == 'E'
    ensures Takes(G.TemplateArg(m, i), next + 1)
  {
    hide G.Type, G.ExprPrimary, G.Expression;
    TypeRefuses(m, i);
    LiteralRefuses(m, i);
    assert Fails(G.ArgumentPack(m, i)) && Fails(G.TypeOrLiteral(m, i));
    hide G.ArgumentPack, G.TypeOrLiteral;
    assert Takes(G.ExpressionArg(m, i), next + 1);
  }

  // ----- expressions ----------------------------------------------------------------------------------

  lemma ExprIsParam(m: string, i: nat, next: nat, d: Ideal, ps: seq<string>)
    requires i <= |m| && Reads(G.TemplateParam(m, i), next, d, ps)
    ensures Reads(G.Expression(m, i), next, d, ps)
  {
    hide G.TemplateParam;
  }

  lemma ExprIsLiteral(m: string, i: nat, next: nat, d: Ideal, ps: seq<string>)
    requires i <= |m| && At(m, i) == 'L' && Reads(G.ExprPrimary(m, i), next, d, ps)
    ensures Reads(G.Expression(m, i), next, d, ps)
  {
    hide G.TemplateParam, G.ExprPrimary;
    TemplateParamRefuses(m, i);
    ReadSecond(G.TemplateParam(m, i), G.ExprPrimary(m, i), next, d, ps);
  }

  lemma NoOperand(m: string, i: nat)
    requires i <= |m| && IsLower(At(m, i))
    ensures Fails(G.TemplateParam(m, i)) && Fails(G.ExprPrimary(m, i))
    ensures Fails(G.TemplateParam(m, i).Before(G.ExprPrimary(m, i)))
  {
    hide G.TemplateParam, G.ExprPrimary;
    TemplateParamRefuses(m, i);
    LiteralRefuses(m, i);
  }

  // An operator and three operands.
  lemma TernaryRead(m: string, i: nat, j: nat, k: nat, l: nat, next: nat, d: Ideal, os: seq<string>, ps: seq<string>,
                    qs: seq<string>, rs: seq<string>)
    requires i <= |m| && IsLower(At(m, i)) && j <= |m| && k <= |m| && l <= |m| && Reads(G.OperatorName(m, i), j, d, os)
    requires Reads(G.Expression(m, j), k, Says(d, os), ps) && Reads(G.Expression(m, k), l, Says(d, os + ps), qs)
    requires Reads(G.Expression(m, l), next, Says(d, os + ps + qs), rs)
    ensures Reads(G.Expression(m, i), next, d, os + ps + qs + rs)
  {
    hide G.TemplateParam, G.ExprPrimary, G.OperatorName, G.Expression, Meaning, Says;
    NoOperand(m, i);
    var a, b := G.OperatorName(m, i), G.Expression(m, j);
    ReadBoth(a, b, j, k, d, os, ps);
    ReadBoth(a.Before(b), G.Expression(m, k), k, l, d, os + ps, qs);
    var c := a.Before(b).Before(G.Expression(m, k));
    ReadBoth(c, G.Expression(m, l), l, next, d, os + ps + qs, rs);
    assert G.Ternary(m, i) == c.Before(G.Expression(m, l));
    TernaryIsExpression(m, i, next, d, os + ps + qs + rs);
  }

  lemma TernaryIsExpression(m: string, i: nat, next: nat, d: Ideal, ps: seq<string>)
    requires i <= |m| && IsLower(At(m, i)) && Reads(G.Ternary(m, i), next, d, ps)
    ensures Reads(G.Expression(m, i), next, d, ps)
  {
    hide G.TemplateParam, G.ExprPrimary, G.Ternary, Meaning, Says;
    NoOperand(m, i);
    ReadSecond(G.TemplateParam(m, i).Before(G.ExprPrimary(m, i)), G.Ternary(m, i), next, d, ps);
  }

  // An operator and two operands: there is no third one.
  lemma BinaryRead(m: string, i: nat, j: nat, k: nat, next: nat, d: Ideal, os: seq<string>, ps: seq<string>,
                   qs: seq<string>)
    requires i <= |m| && IsLower(At(m, i)) && j <= |m| && k <= |m| && next <= |m|
    requires Reads(G.OperatorName(m, i), j, d, os)
    requires Reads(G.Expression(m, j), k, Says(d, os), ps) && Reads(G.Expression(m, k), next, Says(d, os + ps), qs)
    requires Fails(G.Expression(m, next))
    ensures Reads(G.Expression(m, i), next, d, os + ps + qs)
  {
    hide G.TemplateParam, G.ExprPrimary, G.OperatorName, G.Expression, Meaning, Says;
    var a, b := G.OperatorName(m, i), G.Expression(m, j);
    ReadBoth(a, b, j, k, d, os, ps);
    ReadBoth(a.Before(b), G.Expression(m, k), k, next, d, os + ps, qs);
    assert G.Binary(m, i) == a.Before(b).Before(G.Expression(m, k));
    assert Fails(G.Ternary(m, i));
    BinaryIsExpression(m, i, next, d, os + ps + qs);
  }

  lemma BinaryIsExpression(m: string, i: nat, next: nat, d: Ideal, ps: seq<string>)
    requires i <= |m| && IsLower(At(m, i)) && Fails(G.Ternary(m, i)) && Reads(G.Binary(m, i), next, d, ps)
    ensures Reads(G.Expression(m, i), next, d, ps)
  {
    hide G.TemplateParam, G.ExprPrimary, G.Ternary, G.Binary, Meaning, Says;
    NoOperand(m, i);
    ReadSecond(G.TemplateParam(m, i).Before(G.ExprPrimary(m, i)).Before(G.Ternary(m, i)), G.Binary(m, i), next, d, ps);
  }

  // An operator and one operand: there is no second one.
  lemma UnaryRead(m: string, i: nat, j: nat, next: nat, d: Ideal, os: seq<string>, ps: seq<string>)
    requires i <= |m| && IsLower(At(m, i)) && j <= |m| && next <= |m| && Reads(G.OperatorName(m, i), j, d, os)
    requires Reads(G.Expression(m, j), next, Says(d, os), ps) && Fails(G.Expression(m, next))
    ensures Reads(G.Expression(m, i), next, d, os + ps)
  {
    hide G.TemplateParam, G.ExprPrimary, G.OperatorName, G.Expression, Meaning, Says;
    var a, b := G.OperatorName(m, i), G.Expression(m, j);
    ReadBoth(a, b, j, next, d, os, ps);
    assert G.Unary(m, i) == a.Before(b);
    assert Fails(G.Ternary(m, i)) && Fails(G.Binary(m, i));
    UnaryIsExpression(m, i, next, d, os + ps);
  }

  lemma UnaryIsExpression(m: string, i: nat, next: nat, d: Ideal, ps: seq<string>)
    requires i <= |m| && IsLower(At(m, i)) && Fails(G.Ternary(m, i)) && Fails(G.Binary(m, i))
    requires Reads(G.Unary(m, i), next, d, ps)
    ensures Reads(G.Expression(m, i), next, d, ps)
  {
    hide G.TemplateParam, G.ExprPrimary, G.Ternary, G.Binary, G.Unary, Meaning, Says;
    NoOperand(m, i);
    var x := G.TemplateParam(m, i).Before(G.ExprPrimary(m, i)).Before(G.Ternary(m, i)).Before(G.Binary(m, i));
    ReadSecond(x, G.Unary(m, i), next, d, ps);
  }

  // No operator expression.
  lemma NoOperation(m: string, i: nat)
    requires i <= |m| && IsLower(At(m, i)) && Fails(G.Ternary(m, i)) && Fails(G.Binary(m, i)) && Fails(G.Unary(m, i))
    ensures var x := G.TemplateParam(m, i).Before(G.ExprPrimary(m, i)).Before(G.Ternary(m, i));
      Fails(x.Before(G.Binary(m, i)).Before(G.Unary(m, i)))
  {
    hide G.TemplateParam, G.ExprPrimary, G.Ternary, G.Binary, G.Unary;
    NoOperand(m, i);
  }

  // st and a type that starts no expression.
  lemma SizeofRead(m: string, i: nat, next: nat, d: Ideal, ps: seq<string>)
    requires HasPrefix(m, i, "st") && Reads(G.Type(m, i + 2), next, d, ps) && Fails(G.Expression(m, i + 2))
    ensures Reads(G.Expression(m, i), next, d, ps)
  {
    hide G.TemplateParam, G.ExprPrimary, G.OperatorName, G.Expression, G.Type, Meaning, Says, HasPrefix;
    PrefixChar(m, i, "st");
    assert A.Operator.SizeofType.Code() == "st";
    OperatorRead(m, i, A.Operator.SizeofType, d);
    assert Fails(G.Ternary(m, i)) && Fails(G.Binary(m, i)) && Fails(G.Unary(m, i));
    NoOperation(m, i);
    hide G.Ternary, G.Binary, G.Unary;
    TokensHere(m, i, 's', 't');
    var a := G.TwoTokens(m, i, 's', 't');
    SkipAndRead(a, G.Type(m, i + 2), i + 2, next, d, ps);
    assert G.SizeofType(m, i) == a.Before(G.Type(m, i + 2));
    SizeofIsExpression(m, i, next, d, ps);
  }

  // The letter of a builtin type and an E are no expression.
  lemma LetterIsNoExpression(m: string, i: nat)
    requires i + 1 < |m| && IsLower(m[i]) && m[i + 1] == 'E'
    ensures Fails(G.Expression(m, i))
  {
    NoOperand(m, i);
    LetterIsNoOperator(m, i);
    hide G.TemplateParam, G.ExprPrimary, G.OperatorName;
    assert Fails(G.Ternary(m, i)) && Fails(G.Binary(m, i)) && Fails(G.Unary(m, i));
    assert Fails(G.SizeofType(m, i)) && Fails(G.ScopedTemplate(m, i)) && Fails(G.Scoped(m, i));
  }

  lemma LetterIsNoOperator(m: string, i: nat)
    requires i + 1 < |m| && IsLower(m[i]) && m[i + 1] == 'E'
    ensures Fails(G.OperatorName(m, i))
  {
    hide Table.Entries, Find;
    NoOperator(m[i], 'E');
    assert Fails(G.CastOperator(m, i)) && Fails(G.VendorOperator(m, i)) && Fails(G.OperatorSymbol(m, i));
  }

  lemma SizeofIsExpression(m: string, i: nat, next: nat, d: Ideal, ps: seq<string>)
    requires i <= |m| && IsLower(At(m, i)) && Fails(G.Ternary(m, i)) && Fails(G.Binary(m, i)) && Fails(G.Unary(m, i))
    requires Reads(G.SizeofType(m, i), next, d, ps)
    ensures Reads(G.Expression(m, i), next, d, ps)
  {
    hide G.TemplateParam, G.ExprPrimary, G.Ternary, G.Binary, G.Unary, G.SizeofType, Meaning, Says;
    NoOperand(m, i);
    NoOperation(m, i);
    var x := G.TemplateParam(m, i).Before(G.ExprPrimary(m, i)).Before(G.Ternary(m, i));
    ReadSecond(x.Before(G.Binary(m, i)).Before(G.Unary(m, i)), G.SizeofType(m, i), next, d, ps);
  }

  lemma ScopeIsNoOperator(m: string, i: nat)
    requires i + 1 < |m| && m[i] == 's' && m[i + 1] == 'r'
    ensures IsLower(m[i]) && Fails(G.OperatorName(m, i))
  {
    hide Table.Entries;
    NoOperator('s', 'r');
    assert Fails(G.CastOperator(m, i)) && Fails(G.VendorOperator(m, i)) && Fails(G.OperatorSymbol(m, i));
  }

  lemma NoOperationAtScope(m: string, i: nat)
    requires i + 1 < |m| && m[i] == 's' && m[i + 1] == 'r'
    ensures Fails(G.Ternary(m, i)) && Fails(G.Binary(m, i)) && Fails(G.Unary(m, i)) && Fails(G.SizeofType(m, i))
  {
    hide G.OperatorName, G.Expression, G.Type;
    ScopeIsNoOperator(m, i);
  }

  // sr, a type and a name.
  lemma ScopedRead(m: string, i: nat, j: nat, next: nat, d: Ideal, ps: seq<string>, qs: seq<string>)
    requires i + 1 < |m| && m[i] == 's' && m[i + 1] == 'r' && j <= |m| && next <= |m| && At(m, next) != 'I'
    requires Reads(G.Type(m, i + 2), j, d, ps) && Reads(G.UnqualifiedName(m, j), next, Says(d, ps), qs)
    ensures Reads(G.Expression(m, i), next, d, ps + qs)
  {
    hide G.Type, G.UnqualifiedName, G.TemplateArgs, Meaning, Says;
    var a := G.TwoTokens(m, i, 's', 'r');
    TokensHere(m, i, 's', 'r');
    SkipAndRead(a, G.Type(m, i + 2), i + 2, j, d, ps);
    var b := a.Before(G.Type(m, i + 2));
    ReadBoth(b, G.UnqualifiedName(m, j), j, next, d, ps, qs);
    TemplateArgsRefuses(m, next);
    assert Fails(G.ScopedTemplate(m, i));
    assert G.Scoped(m, i) == b.Before(G.UnqualifiedName(m, j));
    hide G.TemplateParam, G.ExprPrimary, G.Ternary, G.Binary, G.Unary, G.SizeofType, G.ScopedTemplate, G.Scoped;
    NoOperationAtScope(m, i);
    NoOperation(m, i);
    NoOperand(m, i);
    var x := G.TemplateParam(m, i).Before(G.ExprPrimary(m, i)).Before(G.Ternary(m, i));
    var y := x.Before(G.Binary(m, i)).Before(G.Unary(m, i)).Before(G.SizeofType(m, i));
    ReadSecond(y.Before(G.ScopedTemplate(m, i)), G.Scoped(m, i), next, d, ps + qs);
  }

  // sr, a type, a name and arguments.
  lemma ScopedTemplateRead(m: string, i: nat, j: nat, k: nat, next: nat, d: Ideal, ps: seq<string>, qs: seq<string>)
    requires i + 1 < |m| && m[i] == 's' && m[i + 1] == 'r' && j <= |m| && k <= |m|
    requires Reads(G.Type(m, i + 2), j, d, ps) && Reads(G.UnqualifiedName(m, j), k, Says(d, ps), qs)
    requires Reads(G.TemplateArgs(m, k), next, Says(d, ps + qs), ["<>"])
    ensures Reads(G.Expression(m, i), next, d, ps + qs + ["<>"])
  {
    hide G.Type, G.UnqualifiedName, G.TemplateArgs, Meaning, Says;
    var a := G.TwoTokens(m, i, 's', 'r');
    TokensHere(m, i, 's', 'r');
    SkipAndRead(a, G.Type(m, i + 2), i + 2, j, d, ps);
    var b := a.Before(G.Type(m, i + 2));
    ReadBoth(b, G.UnqualifiedName(m, j), j, k, d, ps, qs);
    var c := b.Before(G.UnqualifiedName(m, j));
    ReadBoth(c, G.TemplateArgs(m, k), k, next, d, ps + qs, ["<>"]);
    assert G.ScopedTemplate(m, i) == c.Before(G.TemplateArgs(m, k));
    hide G.TemplateParam, G.ExprPrimary, G.Ternary, G.Binary, G.Unary, G.SizeofType, G.ScopedTemplate;
    NoOperationAtScope(m, i);
    NoOperation(m, i);
    NoOperand(m, i);
    var x := G.TemplateParam(m, i).Before(G.ExprPrimary(m, i)).Before(G.Ternary(m, i));
    var y := x.Before(G.Binary(m, i)).Before(G.Unary(m, i)).Before(G.SizeofType(m, i));
    ReadSecond(y, G.ScopedTemplate(m, i), next, d, ps + qs + ["<>"]);
  }
}
