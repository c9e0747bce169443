// Encodings and special names: where their parts are read, so are they.
module ReadingEncodings {
  import opened CStrings
  import opened Decimals
  import opened Options
  import opened Reading
  import opened ReadingNames
  import opened ReadingParts
  import opened ReadingTypes
  import opened Refusals
  import opened Trace
  import opened TraceTheorems
  import A = Abi
  import G = Grammar

  // ----- functions and objects -------------------------------------------------------------------

  // A name and parameters.
  lemma FunctionRead(m: string, i: nat, middle: nat, next: nat, d: Ideal, ps: seq<string>)
    requires i <= |m| && middle <= |m| && Reads(G.Name(m, i), middle, d, ps)
    requires Takes(G.OneOrMore(G.FType, m, middle), next)
    ensures Reads(G.Encoding(m, i), next, d, ps + ["()"])
  {
    hide G.Name, G.OneOrMore, G.BareFunctionType, Meaning, Says;
    ParametersRead(m, middle, next, Says(d, ps));
    ReadBoth(G.Name(m, i), G.BareFunctionType(m, middle), middle, next, d, ps, ["()"]);
    assert G.FunctionEncoding(m, i) == G.Name(m, i).Before(G.BareFunctionType(m, middle));
  }

  // A name alone: no parameters follow.
  lemma ObjectRead(m: string, i: nat, next: nat, d: Ideal, ps: seq<string>)
    requires i <= |m| && next <= |m| && Reads(G.Name(m, i), next, d, ps) && StartsNoType(At(m, next))
    ensures Reads(G.Encoding(m, i), next, d, ps)
  {
    hide G.Name, G.BareFunctionType, Meaning, Says;
    ParametersRefused(m, next);
    assert Fails(G.FunctionEncoding(m, i));
    hide G.FunctionEncoding;
    ReadSecond(G.FunctionEncoding(m, i), G.Name(m, i), next, d, ps);
  }

  // ----- special names ----------------------------------------------------------------------------

  // They start with T or G, and no name does.
  lemma SpecialRead(m: string, i: nat, next: nat, d: Ideal, ps: seq<string>)
    requires i <= |m| && At(m, i) in {'T', 'G'} && Reads(G.SpecialName(m, i), next, d, ps)
    ensures Reads(G.Encoding(m, i), next, d, ps)
  {
    hide G.Name, G.BareFunctionType, G.SpecialName, Meaning, Says;
    NameRefuses(m, i);
    assert Fails(G.FunctionEncoding(m, i));
    hide G.FunctionEncoding;
    FailSecond(G.FunctionEncoding(m, i), G.Name(m, i));
    ReadSecond(G.FunctionEncoding(m, i).Before(G.Name(m, i)), G.SpecialName(m, i), next, d, ps);
  }

  // TV, TT, TI or TS and a type.
  lemma VirtualDataRead(m: string, i: nat, next: nat, d: Ideal, ps: seq<string>)
    requires i + 1 < |m| && m[i] == 'T' && m[i + 1] in {'V', 'T', 'I', 'S'} && Reads(G.Type(m, i + 2), next, d, ps)
    ensures Reads(G.Encoding(m, i), next, d, ps)
  {
    hide G.Type, Meaning, Says;
    var cls := "VTIS";
    assert cls[0] == 'V' && cls[1] == 'T' && cls[2] == 'I' && cls[3] == 'S';
    var a, b := G.Token(m, i, 'T'), G.CharClass(m, i + 1, "VTIS");
    TokenRead(m, i, 'T');
    LetterRead(m, i + 1, "VTIS");
    SkipBoth(a, b, i + 1, i + 2);
    SkipAndRead(a.Before(b), G.Type(m, i + 2), i + 2, next, d, ps);
    assert G.VirtualTable(m, i) == a.Before(b).Before(G.Type(m, i + 2));
    hide G.VirtualTable;
    assert Reads(G.SpecialName(m, i), next, d, ps);
    SpecialRead(m, i, next, d, ps);
  }

  lemma LetterRead(m: string, i: nat, cls: CString)
    requires i < |m| && m[i] in cls
    ensures Skips(G.CharClass(m, i, cls), i + 1)
  {
  }

  // h, a number and _, or v, two numbers and _.
  lemma OffsetRead(m: string, i: nat, offset: A.Offset)
    requires HasPrefix(m, i, A.EncodeOffset(offset))
    ensures Skips(G.CallOffset(m, i), i + |A.EncodeOffset(offset)|) && At(m, i) in {'h', 'v'}
  {
    match offset
    case Fixed(n) => FixedRead(m, i, n);
    case Virtual(n, k) => VirtualRead(m, i, n, k);
  }

  // A number and _.
  lemma NumberTo(m: string, i: nat, n: int)
    requires HasPrefix(m, i, A.EncodeInt(n) + "_")
    ensures var end := i + |A.EncodeInt(n)|;
      && Skips(G.Number(m, i), end) && At(m, end) == '_' && Skips(G.Token(m, end, '_'), end + 1)
  {
    hide HasPrefix, G.Number, A.EncodeInt;
    var end := i + |A.EncodeInt(n)|;
    PrefixParts(m, i, A.EncodeInt(n), "_");
    PrefixChar(m, end, "_");
    NumberRead(m, i, n);
    TokenRead(m, end, '_');
  }

  lemma FixedRead(m: string, i: nat, n: int)
    requires HasPrefix(m, i, "h" + (A.EncodeInt(n) + "_"))
    ensures Skips(G.CallOffset(m, i), i + |A.EncodeInt(n)| + 2) && At(m, i) == 'h'
  {
    hide HasPrefix, G.Number, A.EncodeInt, Meaning, Says;
    PrefixParts(m, i, "h", A.EncodeInt(n) + "_");
    PrefixChar(m, i, "h");
    var end := i + 1 + |A.EncodeInt(n)|;
    NumberTo(m, i + 1, n);
    var a, b, c := G.Token(m, i, 'h'), G.NVOffset(m, i + 1), G.Token(m, end, '_');
    TokenRead(m, i, 'h');
    SkipBoth(a, b, i + 1, end);
    SkipBoth(a.Before(b), c, end, end + 1);
    assert G.HOffset(m, i) == a.Before(b).Before(c);
  }

  lemma VirtualRead(m: string, i: nat, n: int, k: int)
    requires HasPrefix(m, i, "v" + (A.EncodeInt(n) + ("_" + (A.EncodeInt(k) + "_"))))
    ensures Skips(G.CallOffset(m, i), i + |A.EncodeInt(n)| + |A.EncodeInt(k)| + 3) && At(m, i) == 'v'
  {
    hide HasPrefix, G.Number, A.EncodeInt, Meaning, Says;
    var first, second := A.EncodeInt(n) + "_", A.EncodeInt(k) + "_";
    assert A.EncodeInt(n) + ("_" + second) == first + second;
    PrefixParts(m, i, "v", first + second);
    PrefixParts(m, i + 1, first, second);
    PrefixChar(m, i, "v");
    var j := i + 1 + |A.EncodeInt(n)|;
    var end := j + 1 + |A.EncodeInt(k)|;
    NumberTo(m, i + 1, n);
    NumberTo(m, j + 1, k);
    var a, b, c := G.Number(m, i + 1), G.Token(m, j, '_'), G.Number(m, j + 1);
    SkipBoth(a, b, j, j + 1);
    SkipBoth(a.Before(b), c, j + 1, end);
    assert G.VOffset(m, i + 1) == a.Before(b).Before(c);
    hide G.VOffset;
    VirtualOffsetRead(m, i, end);
  }

  lemma VirtualOffsetRead(m: string, i: nat, end: nat)
    requires i < |m| && m[i] == 'v' && Skips(G.VOffset(m, i + 1), end) && At(m, end) == '_'
    ensures Skips(G.CallOffset(m, i), end + 1)
  {
    hide G.VOffset, Meaning, Says;
    var a, b, c := G.Token(m, i, 'v'), G.VOffset(m, i + 1), G.Token(m, end, '_');
    TokenRead(m, i, 'v');
    TokenRead(m, end, '_');
    SkipBoth(a, b, i + 1, end);
    SkipBoth(a.Before(b), c, end, end + 1);
    assert G.VirtualOffset(m, i) == a.Before(b).Before(c);
    hide G.VirtualOffset;
    assert Refuses(G.HOffset(m, i), i);
  }

  // The alternatives before a thunk.
  lemma NoTable(m: string, i: nat)
    requires i <= |m| && (At(m, i) == 'T' ==> At(m, i + 1) !in {'V', 'T', 'I', 'S'})
    ensures Fails(G.VirtualTable(m, i))
  {
    var cls := "VTIS";
    assert cls == ['V', 'T', 'I', 'S'];
  }

  // Tc, two offsets and an encoding.
  lemma CovariantRead(m: string, i: nat, j: nat, k: nat, next: nat, d: Ideal, ps: seq<string>)
    requires HasPrefix(m, i, "Tc") && j <= |m| && k <= |m|
    requires Skips(G.CallOffset(m, i + 2), j) && Skips(G.CallOffset(m, j), k)
    requires Reads(G.Encoding(m, k), next, d, ps)
    ensures Reads(G.Encoding(m, i), next, d, ps)
  {
    hide G.CallOffset, G.Encoding, HasPrefix, Meaning, Says;
    PrefixChar(m, i, "Tc");
    TokensHere(m, i, 'T', 'c');
    var a, b, c := G.TwoTokens(m, i, 'T', 'c'), G.CallOffset(m, i + 2), G.CallOffset(m, j);
    SkipBoth(a, b, i + 2, j);
    SkipBoth(a.Before(b), c, j, k);
    SkipAndRead(a.Before(b).Before(c), G.Encoding(m, k), k, next, d, ps);
    assert G.CovariantThunk(m, i) == a.Before(b).Before(c).Before(G.Encoding(m, k));
    NoTable(m, i);
    hide G.CovariantThunk, G.VirtualTable;
    ReadSecond(G.VirtualTable(m, i), G.CovariantThunk(m, i), next, d, ps);
    assert Reads(G.SpecialName(m, i), next, d, ps);
    SpecialRead(m, i, next, d, ps);
  }

  // What starts with G is no table and no thunk.
  lemma NoThunk(m: string, i: nat)
    requires i <= |m| && At(m, i) == 'G'
    ensures Fails(G.VirtualTable(m, i)) && Fails(G.CovariantThunk(m, i)) && Fails(G.Thunk(m, i))
    ensures Fails(G.ConstructionTable(m, i)) && Fails(G.JavaType(m, i))
  {
  }

  // GV and a name.
  lemma GuardRead(m: string, i: nat, next: nat, d: Ideal, ps: seq<string>)
    requires HasPrefix(m, i, "GV") && Reads(G.Name(m, i + 2), next, d, ps)
    ensures Reads(G.Encoding(m, i), next, d, ps)
  {
    hide G.Name, HasPrefix, Meaning, Says;
    PrefixChar(m, i, "GV");
    NoThunk(m, i);
    TokensHere(m, i, 'G', 'V');
    var a := G.TwoTokens(m, i, 'G', 'V');
    SkipAndRead(a, G.Name(m, i + 2), i + 2, next, d, ps);
    assert G.GuardVariable(m, i) == a.Before(G.Name(m, i + 2));
    hide G.VirtualTable, G.CovariantThunk, G.GuardVariable;
    ReadSecond(G.VirtualTable(m, i).Before(G.CovariantThunk(m, i)), G.GuardVariable(m, i), next, d, ps);
    assert Reads(G.SpecialName(m, i), next, d, ps);
    SpecialRead(m, i, next, d, ps);
  }

  // GR and a name.
  lemma TemporaryRead(m: string, i: nat, next: nat, d: Ideal, ps: seq<string>)
    requires HasPrefix(m, i, "GR") && Reads(G.Name(m, i + 2), next, d, ps)
    ensures Reads(G.Encoding(m, i), next, d, ps)
  {
    hide G.Name, HasPrefix, Meaning, Says;
    PrefixChar(m, i, "GR");
    NoThunk(m, i);
    assert Fails(G.GuardVariable(m, i));
    TokensHere(m, i, 'G', 'R');
    var a := G.TwoTokens(m, i, 'G', 'R');
    SkipAndRead(a, G.Name(m, i + 2), i + 2, next, d, ps);
    assert G.ReferenceTemporary(m, i) == a.Before(G.Name(m, i + 2));
    hide G.VirtualTable, G.CovariantThunk, G.GuardVariable, G.Thunk, G.ConstructionTable, G.JavaType,
         G.ReferenceTemporary;
    var x := G.VirtualTable(m, i).Before(G.CovariantThunk(m, i)).Before(G.GuardVariable(m, i)).Before(G.Thunk(m, i));
    var y := x.Before(G.ConstructionTable(m, i)).Before(G.JavaType(m, i));
    ReadSecond(y, G.ReferenceTemporary(m, i), next, d, ps);
    assert Reads(G.SpecialName(m, i), next, d, ps);
    SpecialRead(m, i, next, d, ps);
  }

  // GA and an encoding.
  lemma HiddenRead(m: string, i: nat, next: nat, d: Ideal, ps: seq<string>)
    requires HasPrefix(m, i, "GA") && Reads(G.Encoding(m, i + 2), next, d, ps)
    ensures Reads(G.Encoding(m, i), next, d, ps)
  {
    hide G.Name, G.Encoding, HasPrefix, Meaning, Says;
    PrefixChar(m, i, "GA");
    NoThunk(m, i);
    assert Fails(G.GuardVariable(m, i)) && Fails(G.ReferenceTemporary(m, i));
    TokensHere(m, i, 'G', 'A');
    var a := G.TwoTokens(m, i, 'G', 'A');
    SkipAndRead(a, G.Encoding(m, i + 2), i + 2, next, d, ps);
    assert G.HiddenAlias(m, i) == a.Before(G.Encoding(m, i + 2));
    hide G.VirtualTable, G.CovariantThunk, G.GuardVariable, G.Thunk, G.ConstructionTable, G.JavaType,
         G.ReferenceTemporary, G.HiddenAlias;
    var x := G.VirtualTable(m, i).Before(G.CovariantThunk(m, i)).Before(G.GuardVariable(m, i)).Before(G.Thunk(m, i));
    var y := x.Before(G.ConstructionTable(m, i)).Before(G.JavaType(m, i)).Before(G.ReferenceTemporary(m, i));
    ReadSecond(y, G.HiddenAlias(m, i), next, d, ps);
    assert Reads(G.SpecialName(m, i), next, d, ps);
    SpecialRead(m, i, next, d, ps);
  }

  // T, an offset and an encoding.
  lemma ThunkRead(m: string, i: nat, j: nat, next: nat, d: Ideal, ps: seq<string>)
    requires i < |m| && m[i] == 'T' && At(m, i + 1) in {'h', 'v'} && j <= |m|
    requires Skips(G.CallOffset(m, i + 1), j) && Reads(G.Encoding(m, j), next, d, ps)
    ensures Reads(G.Encoding(m, i), next, d, ps)
  {
    hide G.CallOffset, G.Encoding, Meaning, Says;
    NoTable(m, i);
    assert Fails(G.CovariantThunk(m, i)) && Fails(G.GuardVariable(m, i));
    var a, b := G.Token(m, i, 'T'), G.CallOffset(m, i + 1);
    TokenRead(m, i, 'T');
    SkipBoth(a, b, i + 1, j);
    SkipAndRead(a.Before(b), G.Encoding(m, j), j, next, d, ps);
    assert G.Thunk(m, i) == a.Before(b).Before(G.Encoding(m, j));
    hide G.VirtualTable, G.CovariantThunk, G.GuardVariable, G.Thunk;
    var x := G.VirtualTable(m, i).Before(G.CovariantThunk(m, i)).Before(G.GuardVariable(m, i));
    ReadSecond(x, G.Thunk(m, i), next, d, ps);
    assert Reads(G.SpecialName(m, i), next, d, ps);
    SpecialRead(m, i, next, d, ps);
  }

  // What starts with TC, TF, TJ, Th or Tv is none of the alternatives before.
  lemma NoEarlier(m: string, i: nat)
    requires i + 1 < |m| && m[i] == 'T' && m[i + 1] !in {'V', 'T', 'I', 'S', 'c'} && Fails(G.CallOffset(m, i + 1))
    ensures Fails(G.VirtualTable(m, i)) && Fails(G.CovariantThunk(m, i)) && Fails(G.GuardVariable(m, i))
    ensures Fails(G.Thunk(m, i))
    ensures var x := G.VirtualTable(m, i).Before(G.CovariantThunk(m, i)).Before(G.GuardVariable(m, i));
      Fails(x.Before(G.Thunk(m, i)))
  {
    hide G.CallOffset, G.Encoding, G.Name;
    NoTable(m, i);
    hide G.VirtualTable;
  }

  // TC, a type, a number, _ and a type, which is not printed.
  lemma ConstructionRead(m: string, i: nat, middle: nat, n: nat, next: nat, d: Ideal, ps: seq<string>)
    requires HasPrefix(m, i, "TC") && middle <= |m| && Reads(G.Type(m, i + 2), middle, d, ps)
    requires HasPrefix(m, middle, Decimal(n) + "_") && Takes(G.Type(m, middle + |Decimal(n)| + 1), next)
    ensures Reads(G.Encoding(m, i), next, d, ps)
  {
    hide G.Type, G.Number, HasPrefix, Meaning, Says, Ends, Silent;
    PrefixChar(m, i, "TC");
    var end := middle + |Decimal(n)|;
    PrefixParts(m, middle, Decimal(n), "_");
    PrefixChar(m, end, "_");
    LengthRead(m, middle, n, end);
    TokensHere(m, i, 'T', 'C');
    var a, b, c := G.TwoTokens(m, i, 'T', 'C'), G.Type(m, i + 2), G.Number(m, middle);
    SkipAndRead(a, b, i + 2, middle, d, ps);
    SkippedQualifiers(c, end);
    ReadAndSkip(a.Before(b), c, middle, end, d, ps);
    TokenRead(m, end, '_');
    ReadAndSkip(a.Before(b).Before(c), G.Token(m, end, '_'), end, end + 1, d, ps);
    var e := a.Before(b).Before(c).Before(G.Token(m, end, '_'));
    ReadQuietly(G.Type(m, end + 1), next);
    ReadAndSkip(e, G.Type(m, end + 1).Quietly(), end + 1, next, d, ps);
    assert G.ConstructionTable(m, i) == e.Before(G.Type(m, end + 1).Quietly());
    hide G.ConstructionTable;
    ConstructionIsSpecial(m, i, next, d, ps);
    SpecialRead(m, i, next, d, ps);
  }

  lemma ConstructionIsSpecial(m: string, i: nat, next: nat, d: Ideal, ps: seq<string>)
    requires i + 1 < |m| && m[i] == 'T' && m[i + 1] == 'C' && Reads(G.ConstructionTable(m, i), next, d, ps)
    ensures Reads(G.SpecialName(m, i), next, d, ps)
  {
    hide G.ConstructionTable, Meaning, Says, Ends;
    assert Fails(G.CallOffset(m, i + 1));
    NoEarlier(m, i);
    hide G.CallOffset, G.VirtualTable, G.CovariantThunk, G.GuardVariable, G.Thunk;
    var x := G.VirtualTable(m, i).Before(G.CovariantThunk(m, i)).Before(G.GuardVariable(m, i)).Before(G.Thunk(m, i));
    ReadSecond(x, G.ConstructionTable(m, i), next, d, ps);
  }

  // TF or TJ and a type.
  lemma JavaRead(m: string, i: nat, next: nat, d: Ideal, ps: seq<string>)
    requires i + 1 < |m| && m[i] == 'T' && m[i + 1] in {'F', 'J'} && Reads(G.Type(m, i + 2), next, d, ps)
    ensures Reads(G.Encoding(m, i), next, d, ps)
  {
    hide G.Type, Meaning, Says;
    assert Fails(G.CallOffset(m, i + 1));
    NoEarlier(m, i);
    assert Fails(G.ConstructionTable(m, i));
    var cls := "FJ";
    assert cls[0] == 'F' && cls[1] == 'J';
    var a, b := G.Token(m, i, 'T'), G.CharClass(m, i + 1, "FJ");
    TokenRead(m, i, 'T');
    LetterRead(m, i + 1, "FJ");
    SkipBoth(a, b, i + 1, i + 2);
    SkipAndRead(a.Before(b), G.Type(m, i + 2), i + 2, next, d, ps);
    assert G.JavaType(m, i) == a.Before(b).Before(G.Type(m, i + 2));
    hide G.VirtualTable, G.CovariantThunk, G.GuardVariable, G.Thunk, G.ConstructionTable, G.JavaType;
    var x := G.VirtualTable(m, i).Before(G.CovariantThunk(m, i)).Before(G.GuardVariable(m, i)).Before(G.Thunk(m, i));
    ReadSecond(x.Before(G.ConstructionTable(m, i)), G.JavaType(m, i), next, d, ps);
    assert Reads(G.SpecialName(m, i), next, d, ps);
    SpecialRead(m, i, next, d, ps);
  }

  // Th or Tv, an offset and an encoding.  The h or v alone is no offset.
  lemma OffsetThunkRead(m: string, i: nat, j: nat, next: nat, d: Ideal, ps: seq<string>)
    requires i + 1 < |m| && m[i] == 'T' && m[i + 1] in {'h', 'v'} && At(m, i + 2) in {'h', 'v'} && j <= |m|
    requires Skips(G.CallOffset(m, i + 2), j) && Reads(G.Encoding(m, j), next, d, ps)
    ensures Reads(G.Encoding(m, i), next, d, ps)
  {
    hide G.Encoding, G.CallOffset, Meaning, Says;
    var hv := "hv";
    assert hv[0] == 'h' && hv[1] == 'v';
    var a, b, c := G.Token(m, i, 'T'), G.CharClass(m, i + 1, "hv"), G.CallOffset(m, i + 2);
    TokenRead(m, i, 'T');
    LetterRead(m, i + 1, "hv");
    SkipBoth(a, b, i + 1, i + 2);
    SkipBoth(a.Before(b), c, i + 2, j);
    SkipAndRead(a.Before(b).Before(c), G.Encoding(m, j), j, next, d, ps);
    assert G.OffsetThunk(m, i) == a.Before(b).Before(c).Before(G.Encoding(m, j));
    hide G.OffsetThunk;
    OffsetThunkIsSpecial(m, i, next, d, ps);
    SpecialRead(m, i, next, d, ps);
  }

  lemma OffsetThunkIsSpecial(m: string, i: nat, next: nat, d: Ideal, ps: seq<string>)
    requires i + 1 < |m| && m[i] == 'T' && m[i + 1] in {'h', 'v'} && At(m, i + 2) in {'h', 'v'}
    requires Reads(G.OffsetThunk(m, i), next, d, ps)
    ensures Reads(G.SpecialName(m, i), next, d, ps)
  {
    hide G.OffsetThunk, G.VirtualTable, G.CovariantThunk, G.GuardVariable, G.Thunk, Meaning, Says;
    NoOffset(m, i + 1);
    NoEarlier(m, i);
    NoLater(m, i);
    hide G.ConstructionTable, G.JavaType, G.ReferenceTemporary, G.HiddenAlias;
    var x := G.VirtualTable(m, i).Before(G.CovariantThunk(m, i)).Before(G.GuardVariable(m, i)).Before(G.Thunk(m, i));
    var y := x.Before(G.ConstructionTable(m, i)).Before(G.JavaType(m, i)).Before(G.ReferenceTemporary(m, i));
    ReadSecond(y.Before(G.HiddenAlias(m, i)), G.OffsetThunk(m, i), next, d, ps);
  }

  lemma NoOffset(m: string, i: nat)
    requires i < |m| && At(m, i + 1) in {'h', 'v'}
    ensures Fails(G.CallOffset(m, i))
  {
    assert Fails(G.HOffset(m, i)) && Fails(G.VOffset(m, i + 1)) && Fails(G.VirtualOffset(m, i));
  }

  lemma NoLater(m: string, i: nat)
    requires i + 1 < |m| && m[i] == 'T' && m[i + 1] in {'h', 'v'}
    ensures Fails(G.ConstructionTable(m, i)) && Fails(G.JavaType(m, i)) && Fails(G.ReferenceTemporary(m, i))
    ensures Fails(G.HiddenAlias(m, i))
  {
    var fj := "FJ";
    assert fj == ['F', 'J'];
  }
}
