// Types: where their parts are read, so are they.
module ReadingTypes {
  import opened CStrings
  import opened Decimals
  import opened Options
  import opened Reading
  import opened ReadingNames
  import opened ReadingParts
  import opened Refusals
  import opened Tables
  import opened Trace
  import opened TraceTheorems
  import A = Abi
  import G = Grammar

  // ----- types with a mark in front ----------------------------------------------------------

  lemma MarkedRead(m: string, i: nat, next: nat, d: Ideal, ps: seq<string>)
    requires i <= |m| && Reads(G.MarkedType(m, i), next, d, ps)
    ensures Reads(G.Type(m, i), next, d, ps)
  {
    hide G.MarkedType;
  }

  // Qualifiers and a type.
  lemma QualifiedRead(m: string, i: nat, j: nat, next: nat, d: Ideal, ps: seq<string>)
    requires i <= |m| && j <= |m| && G.CVQualifiers(m, i) == G.Accept(j, Nil) && Reads(G.Type(m, j), next, d, ps)
    ensures Reads(G.Type(m, i), next, d, ps)
  {
    hide G.Type, G.CVQualifiers, Meaning, Says;
    var a := G.CVQualifiers(m, i);
    SkippedQualifiers(a, j);
    SkipAndRead(a, G.Type(m, j), j, next, d, ps);
    assert G.QualifiedType(m, i) == a.Before(G.Type(m, j));
    hide G.QualifiedType;
    assert Reads(G.MarkedType(m, i), next, d, ps);
    MarkedRead(m, i, next, d, ps);
  }

  lemma SkippedQualifiers(a: G.Parse, j: nat)
    requires a == G.Accept(j, Nil)
    ensures Skips(a, j)
  {
  }

  lemma NoQualifiers(m: string, i: nat)
    requires i <= |m| && At(m, i) !in {'r', 'V', 'K'}
    ensures Fails(G.CVQualifiers(m, i)) && Fails(G.QualifiedType(m, i))
  {
  }

  // O, P, R, C or G and a type.
  lemma IndirectRead(m: string, i: nat, next: nat, d: Ideal, ps: seq<string>)
    requires i < |m| && m[i] in {'O', 'P', 'R', 'C', 'G'} && Reads(G.Type(m, i + 1), next, d, ps)
    ensures Reads(G.Type(m, i), next, d, ps)
  {
    hide G.Type, G.QualifiedType, Meaning, Says;
    NoQualifiers(m, i);
    var a := G.CharClass(m, i, "OPRCG");
    MarkIn(m, i);
    SkipAndRead(a, G.Type(m, i + 1), i + 1, next, d, ps);
    assert G.IndirectType(m, i) == a.Before(G.Type(m, i + 1));
    hide G.IndirectType;
    ReadSecond(G.QualifiedType(m, i), G.IndirectType(m, i), next, d, ps);
    assert Reads(G.MarkedType(m, i), next, d, ps);
    MarkedRead(m, i, next, d, ps);
  }

  lemma MarkIn(m: string, i: nat)
    requires i < |m| && m[i] in {'O', 'P', 'R', 'C', 'G'}
    ensures Skips(G.CharClass(m, i, "OPRCG"), i + 1)
  {
    var cls := "OPRCG";
    assert cls[0] == 'O' && cls[1] == 'P' && cls[2] == 'R' && cls[3] == 'C' && cls[4] == 'G';
  }

  lemma NotIndirect(m: string, i: nat)
    requires i <= |m| && At(m, i) !in {'r', 'V', 'K', 'O', 'P', 'R', 'C', 'G'}
    ensures Fails(G.QualifiedType(m, i)) && Fails(G.IndirectType(m, i))
    ensures Fails(G.QualifiedType(m, i).Before(G.IndirectType(m, i)))
  {
    hide G.Type;
  }

  // Dp and a type.
  lemma PackRead(m: string, i: nat, next: nat, d: Ideal, ps: seq<string>)
    requires HasPrefix(m, i, "Dp") && Reads(G.Type(m, i + 2), next, d, ps)
    ensures Reads(G.Type(m, i), next, d, ps)
  {
    hide G.Type, G.QualifiedType, G.IndirectType, HasPrefix, Meaning, Says;
    PrefixChar(m, i, "Dp");
    NotIndirect(m, i);
    TokensHere(m, i, 'D', 'p');
    var a := G.TwoTokens(m, i, 'D', 'p');
    SkipAndRead(a, G.Type(m, i + 2), i + 2, next, d, ps);
    assert G.PackExpansion(m, i) == a.Before(G.Type(m, i + 2));
    hide G.PackExpansion;
    ReadSecond(G.QualifiedType(m, i).Before(G.IndirectType(m, i)), G.PackExpansion(m, i), next, d, ps);
    assert Reads(G.MarkedType(m, i), next, d, ps);
    MarkedRead(m, i, next, d, ps);
  }

  // Dt or DT, an expression and E.
  lemma DecltypeRead(m: string, i: nat, kind: char, next: nat, d: Ideal, ps: seq<string>)
    requires HasPrefix(m, i, ['D', kind]) && kind in {'t', 'T'}
    requires Reads(G.Expression(m, i + 2), next, d, ps) && At(m, next) == 'E'
    ensures Reads(G.Type(m, i), next + 1, d, ps)
  {
    hide G.Type, G.QualifiedType, G.IndirectType, G.Expression, HasPrefix, Meaning, Says;
    PrefixChar(m, i, ['D', kind]);
    NotIndirect(m, i);
    assert Fails(G.PackExpansion(m, i));
    hide G.PackExpansion;
    KindIn(m, i);
    var a := G.Token(m, i, 'D').Before(G.CharClass(m, i + 1, "tT"));
    SkipAndRead(a, G.Expression(m, i + 2), i + 2, next, d, ps);
    var b := a.Before(G.Expression(m, i + 2));
    TokenRead(m, next, 'E');
    ReadAndSkip(b, G.Token(m, next, 'E'), next, next + 1, d, ps);
    assert G.Decltype(m, i) == b.Before(G.Token(m, next, 'E'));
    hide G.Decltype;
    var x := G.QualifiedType(m, i).Before(G.IndirectType(m, i)).Before(G.PackExpansion(m, i));
    ReadSecond(x, G.Decltype(m, i), next + 1, d, ps);
    assert Reads(G.MarkedType(m, i), next + 1, d, ps);
    MarkedRead(m, i, next + 1, d, ps);
  }

  lemma KindIn(m: string, i: nat)
    requires i + 1 < |m| && m[i] == 'D' && m[i + 1] in {'t', 'T'}
    ensures Skips(G.Token(m, i, 'D').Before(G.CharClass(m, i + 1, "tT")), i + 2)
  {
    var cls := "tT";
    assert cls[0] == 't' && cls[1] == 'T';
  }

  // U, a source name and a type.
  lemma VendorQualifiedRead(m: string, i: nat, name: string, next: nat, d: Ideal, ps: seq<string>)
    requires A.IsIdentifier(name) && HasPrefix(m, i, "U" + A.Word(name))
    requires Reads(G.Type(m, i + 1 + |A.Word(name)|), next, Says(d, [A.ShownName(name)]), ps)
    ensures Reads(G.Type(m, i), next, d, [A.ShownName(name)] + ps)
  {
    hide G.Type, G.QualifiedType, G.IndirectType, G.SourceName, HasPrefix, Meaning, Says, A.Word;
    PrefixParts(m, i, "U", A.Word(name));
    PrefixChar(m, i, "U");
    NotIndirect(m, i);
    assert Fails(G.PackExpansion(m, i)) && Fails(G.Decltype(m, i));
    hide G.PackExpansion, G.Decltype;
    var middle, own := i + 1 + |A.Word(name)|, [A.ShownName(name)];
    var a := G.Token(m, i, 'U');
    TokenRead(m, i, 'U');
    SourceNameRead(m, i + 1, name, d);
    SkipAndRead(a, G.SourceName(m, i + 1), i + 1, middle, d, own);
    var b := a.Before(G.SourceName(m, i + 1));
    ReadBoth(b, G.Type(m, middle), middle, next, d, own, ps);
    assert G.VendorType(m, i) == b.Before(G.Type(m, middle));
    hide G.VendorType;
    var x := G.QualifiedType(m, i).Before(G.IndirectType(m, i)).Before(G.PackExpansion(m, i)).Before(G.Decltype(m, i));
    ReadSecond(x, G.VendorType(m, i), next, d, own + ps);
    assert Reads(G.MarkedType(m, i), next, d, own + ps);
    MarkedRead(m, i, next, d, own + ps);
  }

  // ----- types without a mark ---------------------------------------------------------------------

  predicate IsMark(c: char) { c in {'r', 'V', 'K', 'O', 'P', 'R', 'C', 'G', 'D', 'U'} }

  lemma NoMark(m: string, i: nat)
    requires i <= |m| && !IsMark(At(m, i))
    ensures Fails(G.MarkedType(m, i))
  {
    hide G.Type;
    QualifiersRefuse(m, i);
  }

  lemma UnmarkedRead(m: string, i: nat, next: nat, d: Ideal, ps: seq<string>)
    requires i <= |m| && !IsMark(At(m, i)) && Reads(G.UnmarkedType(m, i), next, d, ps)
    ensures Reads(G.Type(m, i), next, d, ps)
  {
    hide G.MarkedType, G.UnmarkedType, Meaning, Says;
    NoMark(m, i);
    ReadSecond(G.MarkedType(m, i), G.UnmarkedType(m, i), next, d, ps);
  }

  lemma BuiltinRead(m: string, i: nat, b: A.Builtin, d: Ideal)
    requires HasPrefix(m, i, [b.Code()])
    ensures Reads(G.Type(m, i), i + 1, d, [b.Text()])
  {
    hide HasPrefix, Find, Table.Entries, A.Builtin.Code, A.Builtin.Text, Meaning, Says, G.Name;
    PrefixChar(m, i, [b.Code()]);
    BuiltinEntry(b);
    BuiltinFound(b);
    SaysOne(d, b.Text());
    assert G.BuiltinType(m, i) == G.Accept(i + 1, Put(b.Text()));
    UnmarkedRead(m, i, i + 1, d, [b.Text()]);
  }

  lemma NoBuiltin(m: string, i: nat)
    requires i <= |m| && !IsLower(At(m, i))
    ensures Fails(G.BuiltinType(m, i))
  {
    hide Find, Table.Entries;
    if i < |m| && IsBuiltin(m[i]) {
      BuiltinIsLower(m[i]);
    }
  }

  // u and a source name.
  lemma VendorTypeRead(m: string, i: nat, name: string, d: Ideal)
    requires A.IsIdentifier(name) && HasPrefix(m, i, "u" + A.Word(name))
    ensures Reads(G.Type(m, i), i + 1 + |A.Word(name)|, d, [A.ShownName(name)])
  {
    hide HasPrefix, Find, Table.Entries, A.Word, Meaning, Says, G.SourceName, G.Name;
    PrefixParts(m, i, "u", A.Word(name));
    PrefixChar(m, i, "u");
    if IsBuiltin('u') {
      BuiltinIsLower('u');
    }
    var next, ps := i + 1 + |A.Word(name)|, [A.ShownName(name)];
    var a := G.Token(m, i, 'u');
    TokenRead(m, i, 'u');
    SourceNameRead(m, i + 1, name, d);
    SkipAndRead(a, G.SourceName(m, i + 1), i + 1, next, d, ps);
    assert G.BuiltinType(m, i) == a.Before(G.SourceName(m, i + 1));
    UnmarkedRead(m, i, next, d, ps);
  }

  // Parameters print as ().
  lemma ParametersRead(m: string, i: nat, next: nat, d: Ideal)
    requires i <= |m| && Takes(G.OneOrMore(G.FType, m, i), next)
    ensures Reads(G.BareFunctionType(m, i), next, d, ["()"])
  {
    hide G.OneOrMore, Meaning, Says;
    var x := G.OneOrMore(G.FType, m, i);
    ReadQuietly(x, next);
    ReadPut(x.Quietly(), next, d, "()");
    assert G.BareFunctionType(m, i) == x.Quietly().AndPut("()");
  }

  // F, perhaps Y, types and E.
  lemma FunctionTypeRead(m: string, i: nat, j: nat, next: nat, d: Ideal)
    requires i < |m| && m[i] == 'F' && j == G.Skip(m, i + 1, 'Y')
    requires Takes(G.OneOrMore(G.FType, m, j), next) && next <= |m| && At(m, next) == 'E'
    ensures Reads(G.Type(m, i), next + 1, d, ["()"])
  {
    hide G.OneOrMore, G.BareFunctionType, G.Skip, G.Name, Meaning, Says;
    NoBuiltin(m, i);
    hide G.BuiltinType;
    ParametersRead(m, j, next, d);
    var a := G.Token(m, i, 'F');
    TokenRead(m, i, 'F');
    FromSkip(a, G.BareFunctionType(m, j), i + 1, next, d, ["()"]);
    var b := a.Before(G.BareFunctionType(m, j));
    TokenRead(m, next, 'E');
    ReadAndSkip(b, G.Token(m, next, 'E'), next, next + 1, d, ["()"]);
    assert G.FunctionType(m, i) == b.Before(G.Token(m, next, 'E'));
    hide G.FunctionType;
    ReadSecond(G.BuiltinType(m, i), G.FunctionType(m, i), next + 1, d, ["()"]);
    assert Reads(G.UnmarkedType(m, i), next + 1, d, ["()"]);
    UnmarkedRead(m, i, next + 1, d, ["()"]);
  }

  // Something that reads nothing, then a parse that starts further on.
  lemma FromSkip(a: G.Parse, b: G.Parse, middle: nat, next: nat, d: Ideal, ps: seq<string>)
    requires Skips(a, middle) && Reads(b, next, d, ps)
    ensures Reads(a.Before(b), next, d, ps)
  {
    SkipAndRead(a, b, middle, next, d, ps);
  }

  lemma NoFunction(m: string, i: nat)
    requires i <= |m| && !IsLower(At(m, i)) && At(m, i) != 'F'
    ensures Fails(G.BuiltinType(m, i)) && Fails(G.FunctionType(m, i))
    ensures Fails(G.BuiltinType(m, i).Before(G.FunctionType(m, i)))
  {
    hide G.BareFunctionType;
    NoBuiltin(m, i);
    hide G.BuiltinType;
  }

  lemma ClassRead(m: string, i: nat, next: nat, d: Ideal, ps: seq<string>)
    requires i <= |m| && !IsMark(At(m, i)) && !IsLower(At(m, i)) && At(m, i) != 'F' && Reads(G.Name(m, i), next, d, ps)
    ensures Reads(G.Type(m, i), next, d, ps)
  {
    hide G.BuiltinType, G.FunctionType, G.Name, Meaning, Says;
    NoFunction(m, i);
    ReadSecond(G.BuiltinType(m, i).Before(G.FunctionType(m, i)), G.ClassEnumType(m, i), next, d, ps);
    assert Reads(G.UnmarkedType(m, i), next, d, ps);
    UnmarkedRead(m, i, next, d, ps);
  }

  // The alternatives before arrays.
  lemma NoClass(m: string, i: nat)
    requires i <= |m| && !IsLower(At(m, i)) && At(m, i) != 'F' && Fails(G.Name(m, i))
    ensures Fails(G.BuiltinType(m, i).Before(G.FunctionType(m, i)))
    ensures Fails(G.BuiltinType(m, i).Before(G.FunctionType(m, i)).Before(G.ClassEnumType(m, i)))
  {
    hide G.BuiltinType, G.FunctionType, G.Name;
    NoFunction(m, i);
  }

  lemma ArrayIsType(m: string, i: nat, next: nat, d: Ideal, ps: seq<string>)
    requires i < |m| && m[i] == 'A' && Reads(G.ArrayType(m, i), next, d, ps)
    ensures Reads(G.Type(m, i), next, d, ps)
  {
    hide G.BuiltinType, G.FunctionType, G.Name, G.ArrayType, Meaning, Says;
    NameRefuses(m, i);
    NoFunction(m, i);
    NoClass(m, i);
    var x := G.BuiltinType(m, i).Before(G.FunctionType(m, i)).Before(G.ClassEnumType(m, i));
    ReadSecond(x, G.ArrayType(m, i), next, d, ps);
    assert Reads(G.UnmarkedType(m, i), next, d, ps);
    UnmarkedRead(m, i, next, d, ps);
  }

  // A, a number, _ and a type.
  lemma ArrayRead(m: string, i: nat, n: nat, next: nat, d: Ideal, ps: seq<string>)
    requires HasPrefix(m, i, "A" + (Decimal(n) + "_"))
    requires Reads(G.Type(m, i + 2 + |Decimal(n)|), next, d, ps)
    ensures Reads(G.Type(m, i), next, d, ps)
  {
    hide G.Type, HasPrefix, Meaning, Says, G.Number;
    var end := i + 1 + |Decimal(n)|;
    PrefixParts(m, i, "A", Decimal(n) + "_");
    PrefixParts(m, i + 1, Decimal(n), "_");
    PrefixChar(m, i, "A");
    PrefixChar(m, end, "_");
    LengthRead(m, i + 1, n, end);
    var a, b, c := G.Token(m, i, 'A'), G.Number(m, i + 1), G.Token(m, end, '_');
    TokenRead(m, i, 'A');
    TokenRead(m, end, '_');
    SkippedQualifiers(b, end);
    SkipBoth(a, b, i + 1, end);
    SkipBoth(a.Before(b), c, end, end + 1);
    SkipAndRead(a.Before(b).Before(c), G.Type(m, end + 1), end + 1, next, d, ps);
    assert G.FixedArray(m, i) == a.Before(b).Before(c).Before(G.Type(m, end + 1));
    hide G.FixedArray;
    assert Reads(G.ArrayType(m, i), next, d, ps);
    ArrayIsType(m, i, next, d, ps);
  }

  // A_ and a type.
  lemma OpenArrayRead(m: string, i: nat, next: nat, d: Ideal, ps: seq<string>)
    requires HasPrefix(m, i, "A_") && Reads(G.Type(m, i + 2), next, d, ps)
    ensures Reads(G.Type(m, i), next, d, ps)
  {
    hide G.Type, HasPrefix, Meaning, Says, G.Expression;
    PrefixChar(m, i, "A_");
    ExpressionRefuses(m, i + 1);
    ReadNothing(G.Expression(m, i + 1), i + 1);
    var a, b, c := G.Token(m, i, 'A'), G.Expression(m, i + 1).Optional(), G.Token(m, i + 1, '_');
    TokenRead(m, i, 'A');
    TokenRead(m, i + 1, '_');
    SkipBoth(a, b, i + 1, i + 1);
    SkipBoth(a.Before(b), c, i + 1, i + 2);
    SkipAndRead(a.Before(b).Before(c), G.Type(m, i + 2), i + 2, next, d, ps);
    assert G.DependentArray(m, i) == a.Before(b).Before(c).Before(G.Type(m, i + 2));
    hide G.DependentArray;
    assert Fails(G.FixedArray(m, i));
    hide G.FixedArray;
    ReadSecond(G.FixedArray(m, i), G.DependentArray(m, i), next, d, ps);
    assert Reads(G.ArrayType(m, i), next, d, ps);
    ArrayIsType(m, i, next, d, ps);
  }

  // A, an expression, _ and a type.
  lemma DependentArrayRead(m: string, i: nat, middle: nat, next: nat, d: Ideal, ps: seq<string>, qs: seq<string>)
    requires i + 1 < |m| && m[i] == 'A' && !IsDigit(m[i + 1]) && !(m[i + 1] == 'n' && IsDigit(At(m, i + 2)))
    requires m[i + 1] != '_' && Reads(G.Expression(m, i + 1), middle, d, ps) && At(m, middle) == '_'
    requires Reads(G.Type(m, middle + 1), next, Says(d, ps), qs)
    ensures Reads(G.Type(m, i), next, d, ps + qs)
  {
    hide G.Type, Meaning, Says, G.Expression;
    var a, b, c := G.Token(m, i, 'A'), G.Expression(m, i + 1).Optional(), G.Token(m, middle, '_');
    TokenRead(m, i, 'A');
    TokenRead(m, middle, '_');
    SkipAndRead(a, b, i + 1, middle, d, ps);
    ReadAndSkip(a.Before(b), c, middle, middle + 1, d, ps);
    ReadBoth(a.Before(b).Before(c), G.Type(m, middle + 1), middle + 1, next, d, ps, qs);
    assert G.DependentArray(m, i) == a.Before(b).Before(c).Before(G.Type(m, middle + 1));
    hide G.DependentArray;
    assert Fails(G.FixedArray(m, i));
    hide G.FixedArray;
    ReadSecond(G.FixedArray(m, i), G.DependentArray(m, i), next, d, ps + qs);
    assert Reads(G.ArrayType(m, i), next, d, ps + qs);
    ArrayIsType(m, i, next, d, ps + qs);
  }

  // M and two types.
  lemma MemberRead(m: string, i: nat, middle: nat, next: nat, d: Ideal, ps: seq<string>, qs: seq<string>)
    requires i < |m| && m[i] == 'M' && middle <= |m| && Reads(G.Type(m, i + 1), middle, d, ps)
    requires Reads(G.Type(m, middle), next, Says(d, ps), qs)
    ensures Reads(G.Type(m, i), next, d, ps + qs)
  {
    hide G.Type, Meaning, Says, G.BuiltinType, G.FunctionType, G.Name;
    var a, b := G.Token(m, i, 'M'), G.Type(m, i + 1);
    TokenRead(m, i, 'M');
    SkipAndRead(a, b, i + 1, middle, d, ps);
    ReadBoth(a.Before(b), G.Type(m, middle), middle, next, d, ps, qs);
    assert G.PointerToMemberType(m, i) == a.Before(b).Before(G.Type(m, middle));
    hide G.PointerToMemberType;
    NameRefuses(m, i);
    NoFunction(m, i);
    NoClass(m, i);
    assert Fails(G.FixedArray(m, i)) && Fails(G.DependentArray(m, i)) && Fails(G.ArrayType(m, i));
    hide G.ArrayType;
    var x := G.BuiltinType(m, i).Before(G.FunctionType(m, i)).Before(G.ClassEnumType(m, i)).Before(G.ArrayType(m, i));
    ReadSecond(x, G.PointerToMemberType(m, i), next, d, ps + qs);
    assert Reads(G.UnmarkedType(m, i), next, d, ps + qs);
    UnmarkedRead(m, i, next, d, ps + qs);
  }

  // ----- substitutions and parameters -----------------------------------------------------------------

  lemma NoArrayOrMember(m: string, i: nat)
    requires i <= |m| && At(m, i) !in {'A', 'M'}
    ensures Fails(G.ArrayType(m, i)) && Fails(G.PointerToMemberType(m, i))
  {
    assert Fails(G.FixedArray(m, i)) && Fails(G.DependentArray(m, i));
  }

  lemma SeenTypeRead(m: string, i: nat, next: nat, d: Ideal, ps: seq<string>)
    requires i <= |m| && At(m, i) == 'S' && At(m, i + 1) != 't' && At(m, next) != 'I'
    requires Reads(G.Substitution(m, i), next, d, ps)
    ensures Reads(G.Type(m, i), next, d, ps)
  {
    hide Meaning, Says, G.BuiltinType, G.FunctionType, G.Name, G.ArrayType, G.PointerToMemberType, G.Substitution;
    SubstitutionIsNoName(m, i, next);
    NoFunction(m, i);
    NoClass(m, i);
    NoArrayOrMember(m, i);
    var x := G.BuiltinType(m, i).Before(G.FunctionType(m, i)).Before(G.ClassEnumType(m, i)).Before(G.ArrayType(m, i));
    var y := x.Before(G.PointerToMemberType(m, i));
    ReadSecond(y, G.Substitution(m, i), next, d, ps);
    assert Reads(G.UnmarkedType(m, i), next, d, ps);
    UnmarkedRead(m, i, next, d, ps);
  }

  lemma NoUnmarked(m: string, i: nat)
    requires i <= |m| && At(m, i) == 'T'
    ensures Fails(G.MarkedType(m, i)) && Fails(G.UnmarkedType(m, i))
    ensures Fails(G.MarkedType(m, i).Before(G.UnmarkedType(m, i)))
  {
    hide G.BuiltinType, G.FunctionType, G.Name, G.ArrayType, G.PointerToMemberType, G.Substitution, G.MarkedType;
    NameRefuses(m, i);
    NoMark(m, i);
    NoFunction(m, i);
    NoClass(m, i);
    NoArrayOrMember(m, i);
    SubstitutionRefuses(m, i);
  }

  lemma ParamTypeRead(m: string, i: nat, next: nat, d: Ideal, ps: seq<string>)
    requires i <= |m| && At(m, i) == 'T' && next <= |m| && At(m, next) != 'I'
    requires Reads(G.TemplateParam(m, i), next, d, ps)
    ensures Reads(G.Type(m, i), next, d, ps)
  {
    hide Meaning, Says, G.MarkedType, G.UnmarkedType, G.TemplateParam, G.TemplateArgs;
    NoUnmarked(m, i);
    TemplateArgsRefuses(m, next);
    assert Fails(G.TemplateTemplateType(m, i));
    hide G.TemplateTemplateType;
    var x := G.MarkedType(m, i).Before(G.UnmarkedType(m, i)).Before(G.TemplateTemplateType(m, i));
    ReadSecond(x, G.TemplateParam(m, i), next, d, ps);
  }

  lemma ParamTemplateRead(m: string, i: nat, middle: nat, next: nat, d: Ideal, ps: seq<string>)
    requires i <= |m| && At(m, i) == 'T' && middle <= |m| && Reads(G.TemplateParam(m, i), middle, d, ps)
    requires Reads(G.TemplateArgs(m, middle), next, Says(d, ps), ["<>"])
    ensures Reads(G.Type(m, i), next, d, ps + ["<>"])
  {
    hide Meaning, Says, G.MarkedType, G.UnmarkedType, G.TemplateParam, G.TemplateArgs;
    NoUnmarked(m, i);
    var a, b := G.TemplateParam(m, i), G.TemplateArgs(m, middle);
    ReadBoth(a, b, middle, next, d, ps, ["<>"]);
    assert G.TemplateTemplateType(m, i) == a.Before(b);
    hide G.TemplateTemplateType;
    ReadSecond(G.MarkedType(m, i).Before(G.UnmarkedType(m, i)), G.TemplateTemplateType(m, i), next, d, ps + ["<>"]);
  }
}
