// Every encoding is accepted, up to its end, and prints its pieces.
module Acceptance {
  import opened CStrings
  import opened Decimals
  import opened FirstCharacters
  import opened Options
  import opened Reading
  import opened ReadingEncodings
  import opened ReadingExpressions
  import opened ReadingNames
  import opened ReadingParts
  import opened ReadingPaths
  import opened ReadingTypes
  import opened Refusals
  import opened Tables
  import opened TraceTheorems
  import A = Abi
  import G = Grammar

  const QUIET := Ideal("", "", 0, false)

  lemma ReadsTakes(p: G.Parse, next: nat, d: Ideal, ps: seq<string>)
    requires Reads(p, next, d, ps)
    ensures Takes(p, next)
  {
  }

  // ----- repetition ---------------------------------------------------------------------------

  lemma OneMore(f: G.ParseFunc, m: string, i: nat, middle: nat, next: nat)
    requires i <= |m| && middle <= |m| && Takes(G.Call(f, m, i), middle) && Takes(G.ZeroOrMore(f, m, middle), next)
    ensures Takes(G.ZeroOrMore(f, m, i), next) && Takes(G.OneOrMore(f, m, i), next)
  {
    hide G.Call;
  }

  lemma NoMore(f: G.ParseFunc, m: string, i: nat)
    requires i <= |m| && Refuses(G.Call(f, m, i), i)
    ensures Takes(G.ZeroOrMore(f, m, i), i)
  {
    hide G.Call;
  }

  lemma OneMoreType(m: string, i: nat, middle: nat, next: nat)
    requires i <= |m| && middle <= |m| && Takes(G.Type(m, i), middle) && Takes(G.ZeroOrMore(G.FType, m, middle), next)
    ensures Takes(G.ZeroOrMore(G.FType, m, i), next) && Takes(G.OneOrMore(G.FType, m, i), next)
  {
    hide G.Type, G.ZeroOrMore;
    OneMore(G.FType, m, i, middle, next);
  }

  lemma OneMoreArg(m: string, i: nat, middle: nat, next: nat)
    requires i <= |m| && middle <= |m| && Takes(G.TemplateArg(m, i), middle)
    requires Takes(G.ZeroOrMore(G.FTemplateArg, m, middle), next)
    ensures Takes(G.ZeroOrMore(G.FTemplateArg, m, i), next) && Takes(G.OneOrMore(G.FTemplateArg, m, i), next)
  {
    hide G.TemplateArg, G.ZeroOrMore;
    OneMore(G.FTemplateArg, m, i, middle, next);
  }

  lemma NoMoreTypes(m: string, i: nat)
    requires i <= |m| && Ending(At(m, i))
    ensures Takes(G.ZeroOrMore(G.FType, m, i), i)
  {
    hide G.Type, G.ZeroOrMore;
    TypeRefuses(m, i);
    NoMore(G.FType, m, i);
  }

  lemma NoMoreArgs(m: string, i: nat)
    requires i < |m| && m[i] == 'E'
    ensures Takes(G.ZeroOrMore(G.FTemplateArg, m, i), i)
  {
    hide G.TemplateArg, G.ZeroOrMore;
    TemplateArgRefuses(m, i);
    NoMore(G.FTemplateArg, m, i);
  }

  // ----- types ------------------------------------------------------------------------------------

  lemma QualifiersHere(m: string, i: nat, quals: A.Quals)
    requires HasPrefix(m, i, quals.Code()) && !StartsQualifiers(At(m, i + |quals.Code()|))
    ensures var j := i + |quals.Code()|;
      if quals.Code() == "" then G.CVQualifiers(m, i).Reject? && G.CVQualifiers(m, i).next == i
      else G.CVQualifiers(m, i) == G.Accept(j, Trace.Nil)
  {
    PrefixChars(m, i, quals.Code());
  }

  lemma {:induction false} TypeRead(t: A.Type, m: string, i: nat, d: Ideal)
    requires A.ValidType(t) && HasPrefix(m, i, A.EncodeType(t)) && Closed(At(m, i + |A.EncodeType(t)|))
    ensures Reads(G.Type(m, i), i + |A.EncodeType(t)|, d, A.TypePieces(t))
    decreases t, 1
  {
    hide G.Type, HasPrefix, Meaning, Says, Ends, A.Word, A.EncodeName, A.EncodeExpr, A.EncodeTypes, A.EncodeArgs,
         A.ExprPieces, A.NamePieces, A.ValidName, A.ValidExpr, A.ValidTypes, A.ValidArgs;
    match t
    case Array(_, _) => ArrayTypeRead(t, m, i, d);
    case OpenArray(_) => ArrayTypeRead(t, m, i, d);
    case DependentArray(e, of) => DependentArrayIsRead(e, of, m, i, d);
    case FunctionType(externC, types) => FunctionTypeIsRead(externC, types, m, i, d);
    case Class(name) => ClassIsRead(name, m, i, d);
    case MemberOf(owner, of) => MemberIsRead(owner, of, m, i, d);
    case ParamTemplate(_, _) => ParamTemplateIsRead(t, m, i, d);
    case Qualified(_, _) => MarkedTypeRead(t, m, i, d);
    case Marked(_, _) => MarkedTypeRead(t, m, i, d);
    case Pack(_) => MarkedTypeRead(t, m, i, d);
    case Decltype(kind, e) => DecltypeIsRead(kind, e, m, i, d);
    case VendorQualified(name, of) => VendorQualifiedIsRead(name, of, m, i, d);
    case _ => SimpleTypeRead(t, m, i, d);
  }

  // Types without parts.
  lemma SimpleTypeRead(t: A.Type, m: string, i: nat, d: Ideal)
    requires t.Fundamental? || t.VendorType? || t.Abbreviated? || t.Seen? || t.Param?
    requires A.ValidType(t) && HasPrefix(m, i, A.EncodeType(t)) && Closed(At(m, i + |A.EncodeType(t)|))
    ensures Reads(G.Type(m, i), i + |A.EncodeType(t)|, d, A.TypePieces(t))
  {
    hide G.Type, G.TemplateParam, G.Substitution, HasPrefix, Meaning, Says, Ends, A.Word;
    match t
    case Fundamental(b) => BuiltinRead(m, i, b, d);
    case VendorType(name) => VendorTypeRead(m, i, name, d);
    case Abbreviated(s) =>
      StandardRead(m, i, s, d);
      SeenTypeRead(m, i, i + 2, d, A.TypePieces(t));
    case Seen(id) =>
      SeenRead(m, i, id, d);
      SeenTypeRead(m, i, i + |A.EncodeType(t)|, d, ["?"]);
    case Param(n) =>
      ParamRead(m, i, n, d);
      ParamTypeRead(m, i, i + |A.EncodeType(t)|, d, ["?"]);
  }

  // Types with a mark in front.
  lemma {:induction false} MarkedTypeRead(t: A.Type, m: string, i: nat, d: Ideal)
    requires t.Qualified? || t.Marked? || t.Pack?
    requires A.ValidType(t) && HasPrefix(m, i, A.EncodeType(t)) && Closed(At(m, i + |A.EncodeType(t)|))
    ensures Reads(G.Type(m, i), i + |A.EncodeType(t)|, d, A.TypePieces(t))
    decreases t, 0
  {
    hide G.Type, G.Expression, HasPrefix, Meaning, Says, Ends, A.Word, A.Quals.Code, A.Mark.Code;
    var next := i + |A.EncodeType(t)|;
    match t
    case Qualified(quals, of) =>
      var j := i + |quals.Code()|;
      PrefixParts(m, i, quals.Code(), A.EncodeType(of));
      TypeStarts(of);
      StartsWith(m, j, A.EncodeType(of));
      QualifiersHere(m, i, quals);
      TypeRead(of, m, j, d);
      QualifiedRead(m, i, j, next, d, A.TypePieces(of));
    case Marked(mark, of) =>
      PrefixParts(m, i, [mark.Code()], A.EncodeType(of));
      PrefixChar(m, i, [mark.Code()]);
      MarkCode(mark);
      TypeRead(of, m, i + 1, d);
      IndirectRead(m, i, next, d, A.TypePieces(of));
    case Pack(of) =>
      PrefixParts(m, i, "Dp", A.EncodeType(of));
      TypeRead(of, m, i + 2, d);
      PackRead(m, i, next, d, A.TypePieces(of));
  }

  lemma {:induction false} DecltypeIsRead(kind: char, e: A.Expr, m: string, i: nat, d: Ideal)
    requires kind in {'t', 'T'} && A.ValidExpr(e) && HasPrefix(m, i, ['D', kind] + (A.EncodeExpr(e) + "E"))
    ensures Reads(G.Type(m, i), i + |A.EncodeExpr(e)| + 3, d, A.ExprPieces(e))
    decreases e, 2
  {
    hide G.Type, G.Expression, HasPrefix, Meaning, Says, Ends, A.EncodeExpr, A.ExprPieces, A.ValidExpr;
    var next := i + 2 + |A.EncodeExpr(e)|;
    PrefixParts(m, i, ['D', kind], A.EncodeExpr(e) + "E");
    PrefixParts(m, i + 2, A.EncodeExpr(e), "E");
    PrefixChar(m, next, "E");
    ExprRead(e, m, i + 2, d);
    DecltypeRead(m, i, kind, next, d, A.ExprPieces(e));
  }

  lemma {:induction false} VendorQualifiedIsRead(name: string, of: A.Type, m: string, i: nat, d: Ideal)
    requires A.IsIdentifier(name) && A.ValidType(of) && HasPrefix(m, i, "U" + (A.Word(name) + A.EncodeType(of)))
    requires Closed(At(m, i + |"U" + (A.Word(name) + A.EncodeType(of))|))
    ensures Reads(G.Type(m, i), i + |"U" + (A.Word(name) + A.EncodeType(of))|, d,
                  [A.ShownName(name)] + A.TypePieces(of))
    decreases of, 2
  {
    hide G.Type, HasPrefix, Meaning, Says, Ends, A.Word, A.EncodeType, A.TypePieces, A.ValidType;
    var word := "U" + A.Word(name);
    assert "U" + (A.Word(name) + A.EncodeType(of)) == word + A.EncodeType(of);
    PrefixParts(m, i, word, A.EncodeType(of));
    TypeRead(of, m, i + |word|, Says(d, [A.ShownName(name)]));
    VendorQualifiedRead(m, i, name, i + |word| + |A.EncodeType(of)|, d, A.TypePieces(of));
  }

  lemma MarkCode(mark: A.Mark)
    ensures mark.Code() in {'O', 'P', 'R', 'C', 'G'}
  {
  }

  lemma {:induction false} ArrayTypeRead(t: A.Type, m: string, i: nat, d: Ideal)
    requires t.Array? || t.OpenArray?
    requires A.ValidType(t) && HasPrefix(m, i, A.EncodeType(t)) && Closed(At(m, i + |A.EncodeType(t)|))
    ensures Reads(G.Type(m, i), i + |A.EncodeType(t)|, d, A.TypePieces(t))
    decreases t, 0
  {
    hide G.Type, G.Expression, HasPrefix, Meaning, Says, Ends;
    var next := i + |A.EncodeType(t)|;
    match t
    case Array(size, of) =>
      var front := "A" + (Decimal(size) + "_");
      assert A.EncodeType(t) == front + A.EncodeType(of);
      PrefixParts(m, i, front, A.EncodeType(of));
      TypeRead(of, m, i + |front|, d);
      ArrayRead(m, i, size, next, d, A.TypePieces(of));
    case OpenArray(of) =>
      PrefixParts(m, i, "A_", A.EncodeType(of));
      TypeRead(of, m, i + 2, d);
      OpenArrayRead(m, i, next, d, A.TypePieces(of));
  }

  lemma {:induction false} DependentArrayIsRead(e: A.Expr, of: A.Type, m: string, i: nat, d: Ideal)
    requires A.ValidExpr(e) && !A.NeedsE(e) && A.ValidType(of)
    requires HasPrefix(m, i, "A" + (A.EncodeExpr(e) + ("_" + A.EncodeType(of))))
    requires Closed(At(m, i + |A.EncodeExpr(e)| + |A.EncodeType(of)| + 2))
    ensures Reads(G.Type(m, i), i + |A.EncodeExpr(e)| + |A.EncodeType(of)| + 2, d, A.ExprPieces(e) + A.TypePieces(of))
    decreases A.DependentArray(e, of), 0
  {
    hide G.Type, G.Expression, HasPrefix, Meaning, Says, Ends, A.EncodeExpr, A.EncodeType, A.ExprPieces, A.TypePieces,
         A.ValidExpr, A.ValidType;
    var middle, tail := i + 1 + |A.EncodeExpr(e)|, "_" + A.EncodeType(of);
    PrefixParts(m, i, "A", A.EncodeExpr(e) + tail);
    PrefixParts(m, i + 1, A.EncodeExpr(e), tail);
    PrefixParts(m, middle, "_", A.EncodeType(of));
    PrefixChar(m, i, "A");
    PrefixChar(m, middle, "_");
    ExprStarts(e);
    PrefixChar(m, i + 1, A.EncodeExpr(e));
    ExprRead(e, m, i + 1, d);
    TypeRead(of, m, middle + 1, Says(d, A.ExprPieces(e)));
    DependentArrayRead(m, i, middle, middle + |tail|, d, A.ExprPieces(e), A.TypePieces(of));
  }

  lemma {:induction false} ClassIsRead(name: A.Name, m: string, i: nat, d: Ideal)
    requires A.NamesType(name) && A.ValidName(name) && HasPrefix(m, i, A.EncodeName(name))
    requires Closed(At(m, i + |A.EncodeName(name)|))
    ensures Reads(G.Type(m, i), i + |A.EncodeName(name)|, d, A.NamePieces(name))
    decreases name, 3
  {
    hide G.Type, G.Name, HasPrefix, Meaning, Says, Ends, A.EncodeName, A.NamePieces, A.NamesType, A.EndsInNumber;
    ClassStarts(name);
    StartsWith(m, i, A.EncodeName(name));
    TypesEndPlainly(name);
    NameRead(name, m, i, d);
    ClassRead(m, i, i + |A.EncodeName(name)|, d, A.NamePieces(name));
  }

  lemma {:induction false} MemberIsRead(owner: A.Type, of: A.Type, m: string, i: nat, d: Ideal)
    requires A.ValidType(owner) && A.ValidType(of) && HasPrefix(m, i, "M" + (A.EncodeType(owner) + A.EncodeType(of)))
    requires Closed(At(m, i + 1 + |A.EncodeType(owner)| + |A.EncodeType(of)|))
    ensures Reads(G.Type(m, i), i + 1 + |A.EncodeType(owner)| + |A.EncodeType(of)|, d,
                  A.TypePieces(owner) + A.TypePieces(of))
    decreases A.MemberOf(owner, of), 0
  {
    hide G.Type, HasPrefix, Meaning, Says, Ends, A.EncodeType, A.TypePieces, A.ValidType;
    var middle := i + 1 + |A.EncodeType(owner)|;
    PrefixParts(m, i, "M", A.EncodeType(owner) + A.EncodeType(of));
    PrefixParts(m, i + 1, A.EncodeType(owner), A.EncodeType(of));
    PrefixChar(m, i, "M");
    TypeStarts(of);
    StartsWith(m, middle, A.EncodeType(of));
    TypeRead(owner, m, i + 1, d);
    TypeRead(of, m, middle, Says(d, A.TypePieces(owner)));
    MemberRead(m, i, middle, middle + |A.EncodeType(of)|, d, A.TypePieces(owner), A.TypePieces(of));
  }

  lemma {:induction false} ParamTemplateIsRead(t: A.Type, m: string, i: nat, d: Ideal)
    requires t.ParamTemplate? && A.ValidType(t) && HasPrefix(m, i, A.EncodeType(t))
    ensures Reads(G.Type(m, i), i + |A.EncodeType(t)|, d, A.TypePieces(t))
    decreases t, 0
  {
    hide G.Type, G.TemplateParam, G.TemplateArgs, HasPrefix, Meaning, Says, Ends, A.EncodeParam, A.EncodeArgs;
    var middle := i + |A.EncodeParam(t.n)|;
    PrefixParts(m, i, A.EncodeParam(t.n), A.EncodeArgs(t.args));
    ParamRead(m, i, t.n, d);
    ArgsRead(t.args, m, middle, Says(d, ["?"]));
    ParamTemplateRead(m, i, middle, middle + |A.EncodeArgs(t.args)|, d, ["?"]);
    assert ["?"] + ["<>"] == ["?", "<>"];
  }

  lemma {:induction false} FunctionTypeIsRead(externC: bool, types: A.Types, m: string, i: nat, d: Ideal)
    requires types.Types? && A.ValidTypes(types) && HasPrefix(m, i, A.EncodeType(A.FunctionType(externC, types)))
    ensures Reads(G.Type(m, i), i + |A.EncodeType(A.FunctionType(externC, types))|, d, ["()"])
    decreases types, 1
  {
    hide G.Type, HasPrefix, Meaning, Says, Ends, A.EncodeTypes;
    var y, ts := if externC then "Y" else "", A.EncodeTypes(types);
    PrefixParts(m, i, "F", y + (ts + "E"));
    PrefixParts(m, i + 1, y, ts + "E");
    var j := i + 1 + |y|;
    PrefixParts(m, j, ts, "E");
    PrefixChar(m, i, "F");
    PrefixChar(m, j + |ts|, "E");
    TypesStart(types);
    StartsWith(m, j, ts);
    if externC {
      PrefixChar(m, i + 1, "Y");
    }
    TypesRead(types, m, j);
    FunctionTypeRead(m, i, j, j + |ts|, d);
  }

  // One type or more.
  lemma {:induction false} TypesRead(types: A.Types, m: string, i: nat)
    requires types.Types? && A.ValidTypes(types) && HasPrefix(m, i, A.EncodeTypes(types))
    requires Ending(At(m, i + |A.EncodeTypes(types)|))
    ensures Takes(G.OneOrMore(G.FType, m, i), i + |A.EncodeTypes(types)|)
    decreases types, 0
  {
    hide G.Type, G.ZeroOrMore, G.OneOrMore, HasPrefix, A.EncodeType, A.TypePieces;
    var middle := i + |A.EncodeType(types.head)|;
    PrefixParts(m, i, A.EncodeType(types.head), A.EncodeTypes(types.tail));
    TypeBefore(types.tail, m, middle);
    TypeRead(types.head, m, i, QUIET);
    ReadsTakes(G.Type(m, i), middle, QUIET, A.TypePieces(types.head));
    MoreTypes(types.tail, m, middle);
    OneMoreType(m, i, middle, i + |A.EncodeTypes(types)|);
  }

  lemma {:induction false} MoreTypes(types: A.Types, m: string, i: nat)
    requires A.ValidTypes(types) && HasPrefix(m, i, A.EncodeTypes(types))
    requires Ending(At(m, i + |A.EncodeTypes(types)|))
    ensures Takes(G.ZeroOrMore(G.FType, m, i), i + |A.EncodeTypes(types)|)
    decreases types, 0
  {
    hide G.Type, G.ZeroOrMore, G.OneOrMore, HasPrefix, A.EncodeType, A.TypePieces;
    if types.NoTypes? {
      NoMoreTypes(m, i);
    } else {
      var middle := i + |A.EncodeType(types.head)|;
      PrefixParts(m, i, A.EncodeType(types.head), A.EncodeTypes(types.tail));
      TypeBefore(types.tail, m, middle);
      TypeRead(types.head, m, i, QUIET);
      ReadsTakes(G.Type(m, i), middle, QUIET, A.TypePieces(types.head));
      MoreTypes(types.tail, m, middle);
      OneMoreType(m, i, middle, i + |A.EncodeTypes(types)|);
    }
  }

  // What follows a type in a list ends it.
  lemma TypeBefore(tail: A.Types, m: string, i: nat)
    requires A.ValidTypes(tail) && HasPrefix(m, i, A.EncodeTypes(tail)) && Ending(At(m, i + |A.EncodeTypes(tail)|))
    ensures Closed(At(m, i))
  {
    hide HasPrefix, A.EncodeTypes;
    FirstHere(m, i, A.EncodeTypes(tail), At(m, i + |A.EncodeTypes(tail)|));
    if tail.Types? {
      TypesStart(tail);
    } else {
      assert A.EncodeTypes(tail) == "" by {
        EmptyTypes();
      }
    }
  }

  lemma EmptyTypes()
    ensures A.EncodeTypes(A.NoTypes) == ""
  {
  }

  // ----- template arguments, literals and expressions ---------------------------------------------

  lemma {:induction false} ArgsRead(args: A.Args, m: string, i: nat, d: Ideal)
    requires args.Args? && A.ValidArgs(args) && HasPrefix(m, i, A.EncodeArgs(args))
    ensures At(m, i) == 'I' && Reads(G.TemplateArgs(m, i), i + |A.EncodeArgs(args)|, d, ["<>"])
    decreases args, 1
  {
    hide G.TemplateArg, G.TemplateArgs, G.ZeroOrMore, G.OneOrMore, HasPrefix, A.EncodeArg, Meaning, Says, Ends;
    var end := i + |A.EncodeArgs(args)| - 1;
    PrefixParts(m, i, "I", A.EncodeList(args) + "E");
    PrefixParts(m, i + 1, A.EncodeList(args), "E");
    PrefixChar(m, i, "I");
    PrefixChar(m, end, "E");
    var middle := i + 1 + |A.EncodeArg(args.head)|;
    PrefixParts(m, i + 1, A.EncodeArg(args.head), A.EncodeList(args.tail));
    ArgBefore(args, m, middle);
    ArgRead(args.head, m, i + 1);
    ListRead(args.tail, m, middle);
    OneMoreArg(m, i + 1, middle, end);
    TemplateArgsRead(m, i, end, d);
  }

  // Arguments up to an E.
  lemma {:induction false} ListRead(args: A.Args, m: string, i: nat)
    requires A.ValidArgs(args) && HasPrefix(m, i, A.EncodeList(args)) && At(m, i + |A.EncodeList(args)|) == 'E'
    ensures Takes(G.ZeroOrMore(G.FTemplateArg, m, i), i + |A.EncodeList(args)|)
    decreases args, 0
  {
    hide G.TemplateArg, G.ZeroOrMore, G.OneOrMore, HasPrefix, A.EncodeArg;
    if args.NoArgs? {
      NoMoreArgs(m, i);
    } else {
      var middle := i + |A.EncodeArg(args.head)|;
      PrefixParts(m, i, A.EncodeArg(args.head), A.EncodeList(args.tail));
      ArgBefore(args, m, middle);
      ArgRead(args.head, m, i);
      ListRead(args.tail, m, middle);
      OneMoreArg(m, i, middle, i + |A.EncodeList(args)|);
    }
  }

  // What follows an argument in a list ends it.
  lemma ArgBefore(args: A.Args, m: string, i: nat)
    requires args.Args? && A.ValidArgs(args) && HasPrefix(m, i, A.EncodeList(args.tail))
    requires At(m, i + |A.EncodeList(args.tail)|) == 'E'
    ensures args.head.OfType? ==> Closed(At(m, i))
    ensures args.head.OfLiteral? && args.head.l.Unprefixed? ==> At(m, i) == 'E'
  {
    hide HasPrefix, A.EncodeArg;
    FirstHere(m, i, A.EncodeList(args.tail), 'E');
    ListStarts(args.tail);
  }

  lemma {:induction false} ArgRead(arg: A.Arg, m: string, i: nat)
    requires A.ValidArg(arg) && HasPrefix(m, i, A.EncodeArg(arg))
    requires arg.OfType? ==> Closed(At(m, i + |A.EncodeArg(arg)|))
    requires arg.OfLiteral? && arg.l.Unprefixed? ==> At(m, i + |A.EncodeArg(arg)|) == 'E'
    ensures Takes(G.TemplateArg(m, i), i + |A.EncodeArg(arg)|)
    decreases arg
  {
    hide G.TemplateArg, G.Type, G.ExprPrimary, G.Expression, G.ZeroOrMore, HasPrefix, Meaning, Says, Ends,
         A.TypePieces, A.LiteralPieces, A.ExprPieces, A.EncodeExpr, A.EncodeList, A.EncodeType, A.EncodeLiteral;
    var next := i + |A.EncodeArg(arg)|;
    match arg
    case OfType(t) =>
      TypeStarts(t);
      StartsWith(m, i, A.EncodeType(t));
      TypeRead(t, m, i, QUIET);
      ReadsTakes(G.Type(m, i), next, QUIET, A.TypePieces(t));
      ArgIsType(m, i, next);
    case OfLiteral(l) =>
      LiteralRead(l, m, i, QUIET);
      LiteralIsNotLocal(l, m, i);
      ReadsTakes(G.ExprPrimary(m, i), next, QUIET, A.LiteralPieces(l));
      ArgIsLiteral(m, i, next);
    case OfPack(open, args) =>
      PrefixParts(m, i, [open], A.EncodeList(args) + "E");
      PrefixParts(m, i + 1, A.EncodeList(args), "E");
      PrefixChar(m, i, [open]);
      PrefixChar(m, next - 1, "E");
      ListRead(args, m, i + 1);
      ArgIsPack(m, i, next - 1);
    case OfExpr(e) =>
      PrefixParts(m, i, "X", A.EncodeExpr(e) + "E");
      PrefixParts(m, i + 1, A.EncodeExpr(e), "E");
      PrefixChar(m, i, "X");
      PrefixChar(m, next - 1, "E");
      ExprRead(e, m, i + 1, QUIET);
      ReadsTakes(G.Expression(m, i + 1), next - 1, QUIET, A.ExprPieces(e));
      ArgIsExpression(m, i, next - 1);
  }

  lemma LiteralIsNotLocal(l: A.Literal, m: string, i: nat)
    requires A.ValidLiteral(l) && !A.LooksLocal(l) && HasPrefix(m, i, A.EncodeLiteral(l))
    ensures At(m, i) == 'L' && !IsDigit(At(m, i + 1)) && At(m, i + 1) != 'n'
  {
    hide A.EncodeType;
    if l.Integer? || l.Float? {
      TypeStarts(l.t);
    }
    PrefixChar(m, i, A.EncodeLiteral(l));
  }

  lemma {:induction false} LiteralRead(l: A.Literal, m: string, i: nat, d: Ideal)
    requires A.ValidLiteral(l) && HasPrefix(m, i, A.EncodeLiteral(l))
    requires l.Unprefixed? ==> At(m, i + |A.EncodeLiteral(l)|) == 'E'
    ensures At(m, i) == 'L' && Reads(G.ExprPrimary(m, i), i + |A.EncodeLiteral(l)|, d, A.LiteralPieces(l))
    decreases l
  {
    hide G.Type, G.ExprPrimary, G.Encoding, G.Number, G.IntegerLiteral, HasPrefix, Meaning, Says, Ends, A.EncodeType,
         A.EncodeInt;
    match l
    case Integer(t, n) =>
      var middle := i + 1 + |A.EncodeType(t)|;
      PrefixParts(m, i, "L", A.EncodeType(t) + (A.EncodeInt(n) + "E"));
      PrefixParts(m, i + 1, A.EncodeType(t), A.EncodeInt(n) + "E");
      PrefixParts(m, middle, A.EncodeInt(n), "E");
      PrefixChar(m, i, "L");
      PrefixChar(m, middle + |A.EncodeInt(n)|, "E");
      NumberRead(m, middle, n);
      assert Takes(G.Number(m, middle), middle + |A.EncodeInt(n)|);
      IntStarts(n);
      StartsWith(m, middle, A.EncodeInt(n));
      TypeRead(t, m, i + 1, d);
      IntegerRead(m, i, middle, middle + |A.EncodeInt(n)|, d, A.TypePieces(t));
      IntegerIsLiteral(m, i, middle + |A.EncodeInt(n)| + 1, d, A.TypePieces(t));
    case Float(t, digits) =>
      var middle := i + 1 + |A.EncodeType(t)|;
      PrefixParts(m, i, "L", A.EncodeType(t) + (digits + "E"));
      PrefixParts(m, i + 1, A.EncodeType(t), digits + "E");
      PrefixChar(m, i, "L");
      assert IsFloatChar(digits[0]);
      StartsWith(m, middle, digits + "E");
      TypeRead(t, m, i + 1, d);
      FloatRead(m, i, middle, digits, d, A.TypePieces(t));
    case External(symbol) => ExternalIsRead(symbol, m, i, d);
    case Unprefixed(symbol) => UnprefixedIsRead(symbol, m, i, d);
  }

  lemma {:induction false} ExternalIsRead(symbol: A.Encoding, m: string, i: nat, d: Ideal)
    requires A.ValidEncoding(symbol) && HasPrefix(m, i, A.EncodeLiteral(A.External(symbol)))
    ensures At(m, i) == 'L'
    ensures Reads(G.ExprPrimary(m, i), i + |A.EncodeLiteral(A.External(symbol))|, d, A.EncodingPieces(symbol))
    decreases symbol, 2
  {
    hide G.ExprPrimary, G.Encoding, HasPrefix, Meaning, Says, Ends, A.EncodeEncoding;
    var code := A.EncodeEncoding(symbol);
    assert "L" + ("_Z" + (code + "E")) == "L_Z" + (code + "E");
    PrefixParts(m, i, "L_Z", code + "E");
    PrefixParts(m, i + 3, code, "E");
    PrefixChar(m, i + 3 + |code|, "E");
    EncodingRead(symbol, m, i + 3, d);
    ExternalRead(m, i, i + 3 + |code|, d, A.EncodingPieces(symbol));
  }

  lemma {:induction false} UnprefixedIsRead(symbol: A.Encoding, m: string, i: nat, d: Ideal)
    requires A.ValidEncoding(symbol) && HasPrefix(m, i, A.EncodeLiteral(A.Unprefixed(symbol)))
    requires At(m, i + |A.EncodeLiteral(A.Unprefixed(symbol))|) == 'E'
    ensures At(m, i) == 'L'
    ensures Reads(G.ExprPrimary(m, i), i + |A.EncodeLiteral(A.Unprefixed(symbol))|, d, A.EncodingPieces(symbol))
    decreases symbol, 2
  {
    hide G.ExprPrimary, G.Encoding, HasPrefix, Meaning, Says, Ends, A.EncodeEncoding;
    var code := A.EncodeEncoding(symbol);
    assert "L" + ("Z" + (code + "E")) == "LZ" + (code + "E");
    PrefixParts(m, i, "LZ", code + "E");
    PrefixParts(m, i + 2, code, "E");
    PrefixChar(m, i + 2 + |code|, "E");
    EncodingRead(symbol, m, i + 2, d);
    UnprefixedRead(m, i, i + 2 + |code|, d, A.EncodingPieces(symbol));
  }

  lemma IntStarts(n: int)
    ensures A.EncodeInt(n) != "" && (IsDigit(A.EncodeInt(n)[0]) || A.EncodeInt(n)[0] == 'n')
  {
    DecimalDigits(if n < 0 then -n else n);
    assert n >= 0 ==> IsDigit(Decimal(n)[0]);
  }

  // What may follow an expression.
  predicate Closes(e: A.Expr, c: char)
  {
    A.IsPrimary(e) || c == 'E' || (c == '_' && !A.NeedsE(e))
  }

  lemma {:induction false} ExprRead(e: A.Expr, m: string, i: nat, d: Ideal)
    requires A.ValidExpr(e) && HasPrefix(m, i, A.EncodeExpr(e)) && Closes(e, At(m, i + |A.EncodeExpr(e)|))
    ensures Reads(G.Expression(m, i), i + |A.EncodeExpr(e)|, d, A.ExprPieces(e))
    decreases e, 1
  {
    hide G.TemplateParam, G.Expression, G.ExprPrimary, HasPrefix, Meaning, Says, Ends, A.EncodeType, A.EncodeLiteral,
         A.EncodeParam, A.LiteralPieces, A.TypePieces, A.OperatorPieces, A.Operator.Code, A.ValidType, A.ValidLiteral;
    match e
    case ParamExpr(n) =>
      ParamRead(m, i, n, d);
      ExprIsParam(m, i, i + |A.EncodeParam(n)|, d, ["?"]);
    case LiteralExpr(l) =>
      LiteralRead(l, m, i, d);
      ExprIsLiteral(m, i, i + |A.EncodeLiteral(l)|, d, A.LiteralPieces(l));
    case SizeofExpr(t) => SizeofIsRead(t, m, i, d);
    case Scoped(t, name, args) => ScopedExprRead(t, name, args, m, i, d);
    case Unary(_, _) => UnaryIsRead(e, m, i, d);
    case Converted(t, a) => ConvertedIsRead(t, a, m, i, d);
    case Binary(op, a, b) => BinaryIsRead(op, a, b, m, i, d);
    case Ternary(op, a, b, c) => TernaryIsRead(op, a, b, c, m, i, d);
  }

  lemma {:induction false} SizeofIsRead(t: A.Type, m: string, i: nat, d: Ideal)
    requires A.ValidType(t) && HasPrefix(m, i, "st" + A.EncodeType(t)) && At(m, i + 2 + |A.EncodeType(t)|) == 'E'
    requires t.Fundamental? || !A.StartsExpression(At(A.EncodeType(t), 0))
    ensures Reads(G.Expression(m, i), i + 2 + |A.EncodeType(t)|, d, A.TypePieces(t))
    decreases t, 2
  {
    hide G.Expression, G.Type, HasPrefix, Meaning, Says, Ends, A.EncodeType, A.TypePieces, A.ValidType;
    PrefixParts(m, i, "st", A.EncodeType(t));
    TypeStarts(t);
    StartsWith(m, i + 2, A.EncodeType(t));
    TypeRead(t, m, i + 2, d);
    if t.Fundamental? {
      OneLetter(t);
      LetterIsNoExpression(m, i + 2);
    } else {
      ExpressionRefuses(m, i + 2);
    }
    SizeofRead(m, i, i + 2 + |A.EncodeType(t)|, d, A.TypePieces(t));
  }

  lemma OneLetter(t: A.Type)
    requires t.Fundamental?
    ensures |A.EncodeType(t)| == 1 && IsLower(A.EncodeType(t)[0])
  {
    BuiltinEntry(t.b);
  }

  lemma {:induction false} UnaryIsRead(e: A.Expr, m: string, i: nat, d: Ideal)
    requires e.Unary? && A.ValidExpr(e) && HasPrefix(m, i, A.EncodeExpr(e)) && Closes(e, At(m, i + |A.EncodeExpr(e)|))
    ensures Reads(G.Expression(m, i), i + |A.EncodeExpr(e)|, d, A.ExprPieces(e))
    decreases e, 0
  {
    hide G.OperatorName, G.Expression, HasPrefix, Meaning, Says, Ends, A.Operator.Code, A.OperatorPieces;
    var next, j, op, os := i + |A.EncodeExpr(e)|, i + 2, e.op, A.OperatorPieces(e.op);
    var a := e.a;
    DecodedCode(op);
    PrefixParts(m, i, op.Code(), A.EncodeExpr(a));
    OperatorRead(m, i, op, d);
    ExprRead(a, m, j, Says(d, os));
    ExpressionRefuses(m, next);
    UnaryRead(m, i, j, next, d, os, A.ExprPieces(a));
  }

  lemma {:induction false} ConvertedIsRead(t: A.Type, a: A.Expr, m: string, i: nat, d: Ideal)
    requires A.ValidType(t) && A.ValidExpr(a) && HasPrefix(m, i, "cv" + (A.EncodeType(t) + A.EncodeExpr(a)))
    requires var c := At(m, i + |"cv" + (A.EncodeType(t) + A.EncodeExpr(a))|); Closes(a, c) && c in {'E', '_'}
    ensures Reads(G.Expression(m, i), i + |"cv" + (A.EncodeType(t) + A.EncodeExpr(a))|, d,
                  ["operator "] + A.TypePieces(t) + A.ExprPieces(a))
    decreases A.Converted(t, a), 0
  {
    hide G.Type, G.OperatorName, G.Expression, HasPrefix, Meaning, Says, Ends, A.EncodeType, A.TypePieces,
         A.EncodeExpr, A.ExprPieces, A.ValidExpr, A.ValidType;
    var os, j := ["operator "] + A.TypePieces(t), i + 2 + |A.EncodeType(t)|;
    var next := j + |A.EncodeExpr(a)|;
    PrefixParts(m, i, "cv", A.EncodeType(t) + A.EncodeExpr(a));
    PrefixParts(m, i + 2, A.EncodeType(t), A.EncodeExpr(a));
    PrefixChar(m, i, "cv");
    ExprStarts(a);
    StartsWith(m, j, A.EncodeExpr(a));
    TypeRead(t, m, i + 2, Says(d, ["operator "]).(nest := 0));
    CastRead(m, i, j, d, A.TypePieces(t));
    ExprRead(a, m, j, Says(d, os));
    ExpressionRefuses(m, next);
    UnaryRead(m, i, j, next, d, os, A.ExprPieces(a));
  }

  lemma {:induction false} BinaryIsRead(op: A.Operator, a: A.Expr, b: A.Expr, m: string, i: nat, d: Ideal)
    requires A.IsPrimary(a) && A.ValidExpr(a) && A.ValidExpr(b)
    requires HasPrefix(m, i, op.Code() + (A.EncodeExpr(a) + A.EncodeExpr(b)))
    requires var c := At(m, i + |op.Code() + (A.EncodeExpr(a) + A.EncodeExpr(b))|); Closes(b, c) && c in {'E', '_'}
    ensures Reads(G.Expression(m, i), i + |op.Code() + (A.EncodeExpr(a) + A.EncodeExpr(b))|, d,
                  A.OperatorPieces(op) + A.ExprPieces(a) + A.ExprPieces(b))
    decreases A.Binary(op, a, b), 0
  {
    hide G.OperatorName, G.Expression, HasPrefix, Meaning, Says, Ends, A.Operator.Code, A.OperatorPieces,
         A.EncodeExpr, A.ExprPieces, A.ValidExpr;
    DecodedCode(op);
    var os, j := A.OperatorPieces(op), i + 2;
    var k := j + |A.EncodeExpr(a)|;
    var next := k + |A.EncodeExpr(b)|;
    PrefixParts(m, i, op.Code(), A.EncodeExpr(a) + A.EncodeExpr(b));
    PrefixParts(m, j, A.EncodeExpr(a), A.EncodeExpr(b));
    OperatorRead(m, i, op, d);
    ExprRead(a, m, j, Says(d, os));
    ExprRead(b, m, k, Says(d, os + A.ExprPieces(a)));
    ExpressionRefuses(m, next);
    BinaryRead(m, i, j, k, next, d, os, A.ExprPieces(a), A.ExprPieces(b));
  }

  lemma {:induction false} TernaryIsRead(op: A.Operator, a: A.Expr, b: A.Expr, c: A.Expr, m: string, i: nat, d: Ideal)
    requires A.IsPrimary(a) && A.IsPrimary(b) && A.ValidExpr(a) && A.ValidExpr(b) && A.ValidExpr(c)
    requires HasPrefix(m, i, op.Code() + (A.EncodeExpr(a) + (A.EncodeExpr(b) + A.EncodeExpr(c))))
    requires Closes(c, At(m, i + |op.Code() + (A.EncodeExpr(a) + (A.EncodeExpr(b) + A.EncodeExpr(c)))|))
    ensures Reads(G.Expression(m, i), i + |op.Code() + (A.EncodeExpr(a) + (A.EncodeExpr(b) + A.EncodeExpr(c)))|, d,
                  A.OperatorPieces(op) + A.ExprPieces(a) + A.ExprPieces(b) + A.ExprPieces(c))
    decreases A.Ternary(op, a, b, c), 0
  {
    hide G.OperatorName, G.Expression, HasPrefix, Meaning, Says, Ends, A.Operator.Code, A.OperatorPieces,
         A.EncodeExpr, A.ExprPieces, A.ValidExpr;
    DecodedCode(op);
    var os, j := A.OperatorPieces(op), i + 2;
    var k := j + |A.EncodeExpr(a)|;
    var l := k + |A.EncodeExpr(b)|;
    var next := l + |A.EncodeExpr(c)|;
    PrefixParts(m, i, op.Code(), A.EncodeExpr(a) + (A.EncodeExpr(b) + A.EncodeExpr(c)));
    PrefixParts(m, j, A.EncodeExpr(a), A.EncodeExpr(b) + A.EncodeExpr(c));
    PrefixParts(m, k, A.EncodeExpr(b), A.EncodeExpr(c));
    OperatorRead(m, i, op, d);
    ExprRead(a, m, j, Says(d, os));
    ExprRead(b, m, k, Says(d, os + A.ExprPieces(a)));
    ExprRead(c, m, l, Says(d, os + A.ExprPieces(a) + A.ExprPieces(b)));
    TernaryRead(m, i, j, k, l, next, d, os, A.ExprPieces(a), A.ExprPieces(b), A.ExprPieces(c));
  }

  lemma {:induction false} ScopedExprRead(t: A.Type, name: string, args: A.Args, m: string, i: nat, d: Ideal)
    requires A.ValidType(t) && A.IsIdentifier(name) && A.ValidArgs(args)
    requires HasPrefix(m, i, A.EncodeExpr(A.Scoped(t, name, args)))
    requires At(m, i + |A.EncodeExpr(A.Scoped(t, name, args))|) in {'E', '_'}
    ensures Reads(G.Expression(m, i), i + |A.EncodeExpr(A.Scoped(t, name, args))|, d,
                  A.ExprPieces(A.Scoped(t, name, args)))
    decreases A.Scoped(t, name, args), 0
  {
    hide G.UnqualifiedName, G.Expression, G.Type, G.TemplateArgs, HasPrefix, Meaning, Says, Ends, A.Word,
         A.EncodeArgs, A.EncodeType;
    var j := i + 2 + |A.EncodeType(t)|;
    var k := j + |A.Word(name)|;
    var ps, qs := A.TypePieces(t), [A.ShownName(name)];
    PrefixParts(m, i, "sr", A.EncodeType(t) + (A.Word(name) + A.EncodeArgs(args)));
    PrefixParts(m, i + 2, A.EncodeType(t), A.Word(name) + A.EncodeArgs(args));
    PrefixParts(m, j, A.Word(name), A.EncodeArgs(args));
    PrefixChar(m, i, "sr");
    WordStarts(name);
    StartsWith(m, j, A.Word(name));
    TypeRead(t, m, i + 2, d);
    if args.Args? {
      ArgsRead(args, m, k, Says(d, ps + qs));
      PlainIdentifierRead(m, j, name, Says(d, ps));
      ScopedTemplateRead(m, i, j, k, k + |A.EncodeArgs(args)|, d, ps, qs);
    } else {
      NoArgsHere(args);
      PlainIdentifierRead(m, j, name, Says(d, ps));
      ScopedRead(m, i, j, k, d, ps, qs);
      assert ps + qs + [] == ps + qs;
    }
  }

  lemma NoArgsHere(args: A.Args)
    requires args.NoArgs?
    ensures A.EncodeArgs(args) == "" && A.ArgsPieces(args) == []
  {
  }

  // An identifier without tags.
  lemma PlainIdentifierRead(m: string, i: nat, name: string, d: Ideal)
    requires A.IsIdentifier(name) && HasPrefix(m, i, A.Word(name)) && At(m, i + |A.Word(name)|) != 'B'
    ensures Reads(G.UnqualifiedName(m, i), i + |A.Word(name)|, d, [A.ShownName(name)])
  {
    hide HasPrefix, A.Word, G.UnqualifiedName;
    assert A.Word(name) + A.EncodeTags(A.NoTags) == A.Word(name);
    IdentifierRead(m, i, name, A.NoTags, d);
  }

  // ----- names --------------------------------------------------------------------------------------

  // What may follow an unqualified name.
  predicate Bounds(u: A.Unqualified, c: char)
  {
    c != 'B' && (c == '_' ==> A.PlainUnqualified(u)) && (c == 'I' ==> !u.Cast?) && (IsDigit(c) ==> !A.EndsInDisc(u))
  }

  lemma {:induction false} UnqualifiedRead(u: A.Unqualified, m: string, i: nat, d: Ideal)
    requires A.ValidUnqualified(u) && HasPrefix(m, i, A.EncodeUnqualified(u))
    requires Bounds(u, At(m, i + |A.EncodeUnqualified(u)|))
    ensures Reads(G.UnqualifiedName(m, i), i + |A.EncodeUnqualified(u)|, d, A.UnqualifiedPieces(u))
    decreases u, 0
  {
    hide G.UnqualifiedName, G.OperatorName, G.Type, HasPrefix, Meaning, Says, Ends, A.Word, A.Operator.Code,
         A.OperatorPieces;
    var next := i + |A.EncodeUnqualified(u)|;
    match u
    case Identifier(name, tags) => IdentifierRead(m, i, name, tags, d);
    case Local(name, disc, tags) => LocalRead(m, i, name, disc, tags, d);
    case OfOperator(op) =>
      DecodedCode(op);
      OperatorRead(m, i, op, d);
      OperatorUnqualified(m, i, next, d, A.OperatorPieces(op));
    case VendorOperator(digit, name) =>
      VendorRead(m, i, digit, name, d);
      OperatorUnqualified(m, i, next, d, [A.ShownName(name)]);
    case Cast(t) =>
      PrefixParts(m, i, "cv", A.EncodeType(t));
      PrefixChar(m, i, "cv");
      TypeRead(t, m, i + 2, Says(d, ["operator "]).(nest := 0));
      CastRead(m, i, next, d, A.TypePieces(t));
      OperatorUnqualified(m, i, next, d, ["operator "] + A.TypePieces(t));
  }

  // What may follow a name.
  predicate Follows(name: A.Name, c: char)
  {
    && c != 'I' && c != 'B' && (c == '_' ==> A.PlainEnd(name)) && (IsDigit(c) ==> !A.EndsInNumber(name))
    && (name.StringLiteral? ==> Ending(c))
  }

  lemma {:induction false} NameRead(name: A.Name, m: string, i: nat, d: Ideal)
    requires A.ValidName(name) && HasPrefix(m, i, A.EncodeName(name)) && Follows(name, At(m, i + |A.EncodeName(name)|))
    ensures Reads(G.Name(m, i), i + |A.EncodeName(name)|, d, A.NamePieces(name))
    decreases name, 2
  {
    hide G.Name, G.Substitution, HasPrefix, Meaning, Says, Ends, A.EncodeArgs, A.Standard.Code, A.Standard.Text,
         A.EncodeSeen, A.EncodePath, A.EncodeUnqualified, A.EncodeEncoding, A.EncodeDisc, A.Quals.Code, A.PathPieces,
         A.UnqualifiedPieces, A.EncodingPieces, A.ValidPath, A.ValidUnqualified, A.ValidEncoding, A.ValidArgs;
    match name
    case Nested(quals, path) => NestedRead(quals, path, m, i, d);
    case Entity(of, inner, disc) => EntityIsRead(of, inner, disc, m, i, d);
    case StringLiteral(of, disc) => StringLiteralIsRead(of, disc, m, i, d);
    case Unscoped(std, u, args) => UnscopedRead(std, u, args, m, i, d);
    case StandardTemplate(s, args) => StandardTemplateIsRead(s, args, m, i, d);
    case SeenTemplate(id, args) => SeenTemplateIsRead(id, args, m, i, d);
  }

  lemma {:induction false} StandardTemplateIsRead(s: A.Standard, args: A.Args, m: string, i: nat, d: Ideal)
    requires args.Args? && A.ValidArgs(args) && HasPrefix(m, i, ['S', s.Code()] + A.EncodeArgs(args))
    ensures Reads(G.Name(m, i), i + 2 + |A.EncodeArgs(args)|, d, ["std", "::", s.Text()] + ["<>"])
    decreases args, 3
  {
    hide G.Name, G.Substitution, HasPrefix, Meaning, Says, Ends, A.EncodeArgs, A.ValidArgs, A.Standard.Code,
         A.Standard.Text;
    PrefixParts(m, i, ['S', s.Code()], A.EncodeArgs(args));
    StandardRead(m, i, s, d);
    SubstitutedIsRead(args, m, i, i + 2, d, ["std", "::", s.Text()]);
  }

  lemma {:induction false} SeenTemplateIsRead(id: string, args: A.Args, m: string, i: nat, d: Ideal)
    requires A.IsSeqId(id) && args.Args? && A.ValidArgs(args) && HasPrefix(m, i, A.EncodeSeen(id) + A.EncodeArgs(args))
    ensures Reads(G.Name(m, i), i + |A.EncodeSeen(id)| + |A.EncodeArgs(args)|, d, ["?"] + ["<>"])
    decreases args, 3
  {
    hide G.Name, G.Substitution, HasPrefix, Meaning, Says, Ends, A.EncodeArgs, A.ValidArgs, A.EncodeSeen;
    PrefixParts(m, i, A.EncodeSeen(id), A.EncodeArgs(args));
    SeenRead(m, i, id, d);
    SubstitutedIsRead(args, m, i, i + |A.EncodeSeen(id)|, d, ["?"]);
  }

  // A substitution and the arguments of the template it stands for.
  lemma {:induction false} SubstitutedIsRead(args: A.Args, m: string, i: nat, middle: nat, d: Ideal, ps: seq<string>)
    requires args.Args? && A.ValidArgs(args) && i <= |m| && HasPrefix(m, middle, A.EncodeArgs(args))
    requires At(m, i) == 'S' && At(m, i + 1) != 't' && Reads(G.Substitution(m, i), middle, d, ps)
    ensures Reads(G.Name(m, i), middle + |A.EncodeArgs(args)|, d, ps + ["<>"])
    decreases args, 2
  {
    hide G.Name, G.Substitution, G.UnscopedTemplateName, G.TemplateArgs, HasPrefix, Meaning, Says, Ends, A.EncodeArgs,
         A.ValidArgs;
    TemplateSeen(m, i, middle, d, ps);
    ArgsRead(args, m, middle, Says(d, ps));
    TemplateNameRead(m, i, middle, middle + |A.EncodeArgs(args)|, d, ps);
  }

  lemma {:induction false} UnscopedRead(std: bool, u: A.Unqualified, args: A.Args, m: string, i: nat, d: Ideal)
    requires A.ValidUnqualified(u) && A.ValidArgs(args) && (u.Cast? ==> args.NoArgs?)
    requires var name := A.Unscoped(std, u, args);
      HasPrefix(m, i, A.EncodeName(name)) && Follows(name, At(m, i + |A.EncodeName(name)|))
    ensures var name := A.Unscoped(std, u, args);
      Reads(G.Name(m, i), i + |A.EncodeName(name)|, d, A.NamePieces(name))
    decreases A.Unscoped(std, u, args), 1
  {
    hide G.Name, G.UnscopedName, G.UnscopedTemplateName, G.UnqualifiedName, G.TemplateArgs, HasPrefix, Meaning, Says,
         Ends, A.EncodeUnqualified, A.UnqualifiedPieces;
    var front, own := if std then "St" else "", A.EncodeUnqualified(u);
    var ps := (if std then ["std::"] else []) + A.UnqualifiedPieces(u);
    var middle := i + |front| + |own|;
    PrefixParts(m, i, front, own + A.EncodeArgs(args));
    PrefixParts(m, i + |front|, own, A.EncodeArgs(args));
    if args.Args? {
      ArgsRead(args, m, middle, Says(d, ps));
    }
    NamedHere(std, u, m, i, d);
    if args.Args? {
      TemplateNameRead(m, i, middle, middle + |A.EncodeArgs(args)|, d, ps);
    } else {
      UnscopedNameRead(m, i, middle, d, ps);
      assert ps + [] == ps;
    }
  }

  // St or not, and an unqualified name.
  lemma {:induction false} NamedHere(std: bool, u: A.Unqualified, m: string, i: nat, d: Ideal)
    requires A.ValidUnqualified(u) && HasPrefix(m, i, if std then "St" else "")
    requires HasPrefix(m, i + (if std then 2 else 0), A.EncodeUnqualified(u))
    requires Bounds(u, At(m, i + (if std then 2 else 0) + |A.EncodeUnqualified(u)|))
    ensures At(m, i) !in {'N', 'Z'}
    ensures var next := i + (if std then 2 else 0) + |A.EncodeUnqualified(u)|;
      var ps := (if std then ["std::"] else []) + A.UnqualifiedPieces(u);
      Reads(G.UnscopedName(m, i), next, d, ps) && Reads(G.UnscopedTemplateName(m, i), next, d, ps)
    decreases u, 1
  {
    hide G.UnscopedName, G.UnscopedTemplateName, G.UnqualifiedName, HasPrefix, Meaning, Says, Ends,
         A.EncodeUnqualified, A.UnqualifiedPieces;
    var next := i + (if std then 2 else 0) + |A.EncodeUnqualified(u)|;
    if std {
      UnqualifiedRead(u, m, i + 2, Says(d, ["std::"]));
      InStdRead(m, i, next, d, A.UnqualifiedPieces(u));
    } else {
      UnqualifiedStarts(u);
      StartsWith(m, i, A.EncodeUnqualified(u));
      UnqualifiedRead(u, m, i, d);
      PlainRead(m, i, next, d, A.UnqualifiedPieces(u));
      assert [] + A.UnqualifiedPieces(u) == A.UnqualifiedPieces(u);
    }
  }

  // Behind the E stand a name and perhaps a number.
  function InnerCode(inner: A.Name, disc: Option<nat>): string { A.EncodeName(inner) + A.EncodeDisc(disc) }

  lemma {:induction false} EntityIsRead(of: A.Encoding, inner: A.Name, disc: Option<nat>, m: string, i: nat, d: Ideal)
    requires A.ValidEncoding(of) && A.ValidName(inner) && !inner.StringLiteral? && (disc.Some? ==> A.PlainEnd(inner))
    requires HasPrefix(m, i, "Z" + (A.EncodeEncoding(of) + ("E" + InnerCode(inner, disc))))
    requires Follows(A.Entity(of, inner, disc), At(m, i + 2 + |A.EncodeEncoding(of)| + |InnerCode(inner, disc)|))
    ensures Reads(G.Name(m, i), i + 2 + |A.EncodeEncoding(of)| + |InnerCode(inner, disc)|, d,
                  A.EncodingPieces(of) + ["::"] + A.NamePieces(inner))
    decreases A.Entity(of, inner, disc), 1
  {
    hide G.Name, G.Encoding, G.Discriminator, HasPrefix, Meaning, Says, Ends, A.EncodeEncoding, A.EncodeDisc,
         A.EncodeName, A.EncodingPieces, A.NamePieces, A.ValidName, A.ValidEncoding;
    var ps, middle := A.EncodingPieces(of), i + 1 + |A.EncodeEncoding(of)|;
    var next, tail := middle + 1 + |A.EncodeName(inner)|, InnerCode(inner, disc);
    PrefixParts(m, i, "Z", A.EncodeEncoding(of) + ("E" + tail));
    PrefixParts(m, i + 1, A.EncodeEncoding(of), "E" + tail);
    PrefixParts(m, middle, "E", tail);
    PrefixParts(m, middle + 1, A.EncodeName(inner), A.EncodeDisc(disc));
    PrefixChar(m, i, "Z");
    PrefixChar(m, middle, "E");
    DiscStarts(m, next, disc);
    EncodingRead(of, m, i + 1, d);
    NameRead(inner, m, middle + 1, Says(d, ps + ["::"]));
    DiscRead(m, next, disc);
    EntityRead(m, i, middle, next, middle + 1 + |tail|, d, ps, A.NamePieces(inner));
  }

  lemma {:induction false} StringLiteralIsRead(of: A.Encoding, disc: Option<nat>, m: string, i: nat, d: Ideal)
    requires A.ValidEncoding(of) && HasPrefix(m, i, "Z" + (A.EncodeEncoding(of) + ("Es" + A.EncodeDisc(disc))))
    requires Ending(At(m, i + 3 + |A.EncodeEncoding(of)| + |A.EncodeDisc(disc)|))
    ensures Reads(G.Name(m, i), i + 3 + |A.EncodeEncoding(of)| + |A.EncodeDisc(disc)|, d, A.EncodingPieces(of))
    decreases A.StringLiteral(of, disc), 1
  {
    hide G.Name, G.Encoding, G.Discriminator, HasPrefix, Meaning, Says, Ends, A.EncodeEncoding, A.EncodeDisc,
         A.EncodingPieces, A.ValidEncoding;
    var middle, tail := i + 1 + |A.EncodeEncoding(of)|, "Es" + A.EncodeDisc(disc);
    PrefixParts(m, i, "Z", A.EncodeEncoding(of) + tail);
    PrefixParts(m, i + 1, A.EncodeEncoding(of), tail);
    PrefixParts(m, middle, "Es", A.EncodeDisc(disc));
    PrefixChar(m, i, "Z");
    PrefixChar(m, middle, "Es");
    DiscStarts(m, middle + 2, disc);
    EncodingRead(of, m, i + 1, d);
    DiscRead(m, middle + 2, disc);
    LiteralNameRead(m, i, middle, middle + |tail|, d, A.EncodingPieces(of));
  }

  lemma DiscStarts(m: string, i: nat, disc: Option<nat>)
    requires HasPrefix(m, i, A.EncodeDisc(disc))
    ensures if disc == None then A.EncodeDisc(disc) == "" else At(m, i) == '_'
  {
    if disc.Some? {
      PrefixChar(m, i, A.EncodeDisc(disc));
    }
  }

  lemma PathSays(path: A.Path, before: seq<string>)
    requires path.Path?
    ensures A.PathPieces(path, before) != []
  {
    hide A.UnqualifiedPieces;
    if path.item.Named? {
      UnqualifiedSays(path.item.u);
    }
    assert A.ItemPieces(path.item, before) != [];
  }

  lemma {:induction false} NestedRead(quals: A.Quals, path: A.Path, m: string, i: nat, d: Ideal)
    requires path.Path? && A.FirstItem(path.item) && A.ValidPath(path, [])
    requires HasPrefix(m, i, A.EncodeName(A.Nested(quals, path)))
    ensures Reads(G.Name(m, i), i + |A.EncodeName(A.Nested(quals, path))|, d, A.PathPieces(path, []))
    decreases A.Nested(quals, path), 0
  {
    hide G.Name, G.Prefix, HasPrefix, Meaning, Says, Ends, A.EncodePath, A.Quals.Code, A.ValidPath, A.PathPieces;
    var j := i + 1 + |quals.Code()|;
    var next := j + |A.EncodePath(path)|;
    PrefixParts(m, i, "N", quals.Code() + (A.EncodePath(path) + "E"));
    PrefixParts(m, i + 1, quals.Code(), A.EncodePath(path) + "E");
    PrefixParts(m, j, A.EncodePath(path), "E");
    PrefixChar(m, i, "N");
    PrefixChar(m, next, "E");
    PathStarts(path);
    StartsWith(m, j, A.EncodePath(path));
    QualifiersHere(m, i + 1, quals);
    SaysNothing(d.(nest := 0));
    PathRead(path, [], m, j, false, d.(nest := 0), d.(nest := 0));
    PathSays(path, []);
    NestedNameRead(m, i, j, next, d, A.PathPieces(path, []));
  }

  // ----- paths ----------------------------------------------------------------------------------------

  // The components before have been printed.
  ghost predicate Printed(d: Ideal, start: Ideal, before: seq<string>)
  {
    && d.append == start.append && d.nest >= 0 && (d.nest >= 1 <==> before != [])
    && (d.append ==> d == Says(start, before).(nest := d.nest))
  }

  lemma MorePrinted(d: Ideal, start: Ideal, before: seq<string>, own: seq<string>, e: Ideal)
    requires Printed(d, start, before) && e == Says(d, own).(nest := e.nest) && e.nest >= 1 && own != []
    ensures Printed(e, start, before + own)
  {
    hide Says;
    SaysKeeps(d, own);
    SaysBoth(start, before, own);
    SaysAtLevel(Says(start, before), d.nest, own);
  }

  lemma BehindItemPrinted(d: Ideal, start: Ideal, before: seq<string>, ps: seq<string>)
    requires Printed(d, start, before) && ps != []
    ensures Printed(BehindItem(d, ps), start, before + (Between(d) + ps))
  {
    hide Says;
    SaysKeeps(d, Between(d) + ps);
    MorePrinted(d, start, before, Between(d) + ps, BehindItem(d, ps));
  }

  lemma BehindArgsPrinted(d: Ideal, start: Ideal, before: seq<string>)
    requires Printed(d, start, before) && before != []
    ensures Printed(Says(d, ["<>"]), start, before + ["<>"])
  {
    hide Says;
    SaysKeeps(d, ["<>"]);
    MorePrinted(d, start, before, ["<>"], Says(d, ["<>"]));
  }

  // The last name printed is the one remembered.
  lemma LastKnown(d: Ideal, start: Ideal, before: seq<string>)
    requires Printed(d, start, before) && d.append && A.LastName(before) != ""
    ensures Separated(d).name == A.LastName(before)
  {
    hide Says;
    SaysName(start, before);
  }

  // What follows a component without arguments, or the name of one with arguments.
  lemma ItemBefore(item: A.Item, args: A.Args, tail: A.Path, m: string, i: nat)
    requires item.Named? && item.u.Cast? ==> args.NoArgs?
    requires item.Named? && A.EndsInDisc(item.u) && args.NoArgs? ==> !IsDigit(At(A.EncodePath(tail), 0))
    requires HasPrefix(m, i, A.EncodeArgs(args) + A.EncodePath(tail))
    requires At(m, i + |A.EncodeArgs(args) + A.EncodePath(tail)|) == 'E'
    ensures item.Named? ==> Bounds(item.u, At(m, i))
  {
    hide HasPrefix, A.EncodePath;
    FirstHere(m, i, A.EncodeArgs(args) + A.EncodePath(tail), 'E');
    PathStarts(tail);
    NoPath();
  }

  lemma NoPath()
    ensures A.EncodePath(A.EndOfPath) == ""
  {
  }

  lemma {:induction false} ItemRead(item: A.Item, before: seq<string>, m: string, i: nat, d: Ideal)
    requires A.ValidItem(item, before) && HasPrefix(m, i, A.EncodeItem(item))
    requires item.Named? ==> Bounds(item.u, At(m, i + |A.EncodeItem(item)|))
    requires d.append && A.LastName(before) != "" ==> d.name == A.LastName(before)
    ensures Reads(G.PrefixItem(m, i), i + |A.EncodeItem(item)|, d, A.ItemPieces(item, before))
    ensures A.ItemPieces(item, before) != []
    decreases item
  {
    hide G.PrefixItem, G.TemplateParam, G.Substitution, G.UnscopedName, G.UnqualifiedName, HasPrefix, Meaning, Says,
         Ends, A.EncodeUnqualified, A.UnqualifiedPieces, G.CtorDtorName;
    var next := i + |A.EncodeItem(item)|;
    match item
    case Named(u) =>
      UnqualifiedStarts(u);
      StartsWith(m, i, A.EncodeUnqualified(u));
      UnqualifiedSays(u);
      UnqualifiedRead(u, m, i, d);
      PlainRead(m, i, next, d, A.UnqualifiedPieces(u));
      NamedItemRead(m, i, next, d, A.UnqualifiedPieces(u));
    case ParamItem(n) =>
      ParamRead(m, i, n, d);
      ParamItemRead(m, i, next, d, ["?"]);
    case SeenItem(id) =>
      SeenRead(m, i, id, d);
      SeenItemRead(m, i, next, d, ["?"]);
    case StandardItem(s) =>
      StandardRead(m, i, s, d);
      SeenItemRead(m, i, next, d, ["std", "::", s.Text()]);
    case Std =>
      StdRead(m, i, d);
      SeenItemRead(m, i, next, d, ["std"]);
    case Ctor(kind) =>
      CtorRead(m, i, kind, d);
      SpecialItemRead(m, i, next, d, [d.name], A.ItemPieces(item, before));
    case Dtor(kind) =>
      DtorRead(m, i, kind, d);
      SpecialItemRead(m, i, next, d, ["~", d.name], A.ItemPieces(item, before));
  }

  lemma UnqualifiedSays(u: A.Unqualified)
    ensures A.UnqualifiedPieces(u) != []
  {
    hide A.TypePieces;
  }

  lemma SpecialItemRead(m: string, i: nat, next: nat, d: Ideal, ps: seq<string>, qs: seq<string>)
    requires i <= |m| && At(m, i) in {'C', 'D'} && Reads(G.CtorDtorName(m, i), next, d, ps) && (d.append ==> ps == qs)
    requires qs != []
    ensures Reads(G.PrefixItem(m, i), next, d, qs)
  {
    hide G.PrefixItem, G.UnscopedName, G.UnqualifiedName, Meaning, Says, Ends, G.CtorDtorName;
    SpecialUnqualified(m, i, next, d, ps);
    PlainRead(m, i, next, d, ps);
    NamedItemRead(m, i, next, d, ps);
  }

  lemma {:induction false} PathRead(path: A.Path, before: seq<string>, m: string, i: nat, has: bool, start: Ideal,
                                    d: Ideal)
    requires A.ValidPath(path, before) && HasPrefix(m, i, A.EncodePath(path)) && At(m, i + |A.EncodePath(path)|) == 'E'
    requires Printed(d, start, before)
    ensures Goes(G.Prefix(m, i, has), i + |A.EncodePath(path)|, d, A.PathPieces(path, before))
    decreases path, 1
  {
    hide G.Prefix, G.PrefixItem, HasPrefix, Meaning, Says, Ends, A.EncodeItem, A.ItemPieces, A.ValidItem, A.EncodeArgs;
    match path
    case EndOfPath => PathEnds(m, i, has, d);
    case Path(item, args, tail) =>
      var middle := i + |A.EncodeItem(item)|;
      PrefixParts(m, i, A.EncodeItem(item), A.EncodeArgs(args) + A.EncodePath(tail));
      ItemBefore(item, args, tail, m, middle);
      if d.append && A.LastName(before) != "" {
        LastKnown(d, start, before);
      }
      SeparatedKeeps(d);
      ItemRead(item, before, m, i, Separated(d));
      BehindItemPrinted(d, start, before, A.ItemPieces(item, before));
      TailRead(path, before, m, middle, start, d);
      var ps := A.ItemPieces(item, before);
      var own := A.ComponentPieces(item, args, before);
      var rest := A.ArgsPieces(args) + A.PathPieces(tail, before + own);
      ItemFirst(m, i, has, middle, i + |A.EncodePath(path)|, d, ps, rest);
      assert Between(d) + ps + rest == own + A.PathPieces(tail, before + own);
  }

  lemma SeparatedKeeps(d: Ideal)
    ensures Separated(d).append == d.append
  {
  }

  // The arguments of the first component and the components behind it.
  lemma {:induction false} TailRead(path: A.Path, before: seq<string>, m: string, i: nat, start: Ideal, d: Ideal)
    requires path.Path? && A.ValidPath(path, before) && Printed(d, start, before)
    requires A.ItemPieces(path.item, before) != []
    requires HasPrefix(m, i, A.EncodeArgs(path.args) + A.EncodePath(path.tail))
    requires At(m, i + |A.EncodeArgs(path.args) + A.EncodePath(path.tail)|) == 'E'
    ensures var own := A.ComponentPieces(path.item, path.args, before);
      Goes(G.Prefix(m, i, true), i + |A.EncodeArgs(path.args) + A.EncodePath(path.tail)|,
           BehindItem(d, A.ItemPieces(path.item, before)),
           A.ArgsPieces(path.args) + A.PathPieces(path.tail, before + own))
    decreases path, 0
  {
    hide G.Prefix, G.TemplateArgs, HasPrefix, Meaning, Says, Ends, A.EncodePath, A.EncodeArgs, A.ItemPieces,
         A.PathPieces;
    var ps := A.ItemPieces(path.item, before);
    var first, own := Between(d) + ps, A.ComponentPieces(path.item, path.args, before);
    var e, middle := BehindItem(d, ps), i + |A.EncodeArgs(path.args)|;
    PrefixParts(m, i, A.EncodeArgs(path.args), A.EncodePath(path.tail));
    BehindItemPrinted(d, start, before, ps);
    if path.args.Args? {
      ArgsRead(path.args, m, i, e);
      BehindArgsPrinted(e, start, before + first);
      assert before + first + ["<>"] == before + own;
      PathRead(path.tail, before + own, m, middle, false, start, Says(e, ["<>"]));
      ArgsFirst(m, i, middle, middle + |A.EncodePath(path.tail)|, e, A.PathPieces(path.tail, before + own));
    } else {
      NoArgsHere(path.args);
      assert first == own;
      PathRead(path.tail, before + own, m, middle, true, start, e);
      assert [] + A.PathPieces(path.tail, before + own) == A.PathPieces(path.tail, before + own);
    }
  }

  // ----- encodings ---------------------------------------------------------------------------------------

  lemma {:induction false} EncodingRead(symbol: A.Encoding, m: string, i: nat, d: Ideal)
    requires A.ValidEncoding(symbol) && HasPrefix(m, i, A.EncodeEncoding(symbol))
    requires Ending(At(m, i + |A.EncodeEncoding(symbol)|))
    ensures Reads(G.Encoding(m, i), i + |A.EncodeEncoding(symbol)|, d, A.EncodingPieces(symbol))
    decreases symbol, 1
  {
    hide G.Encoding, G.Name, G.Type, HasPrefix, Meaning, Says, Ends, A.EncodeType, A.EncodeName, A.EncodeTypes,
         A.EncodeOffset, A.TypePieces, A.NamePieces, A.ValidType, A.ValidName, A.ValidTypes;
    var next := i + |A.EncodeEncoding(symbol)|;
    match symbol
    case Function(name, params) => FunctionIsRead(name, params, m, i, d);
    case VirtualData(kind, t) =>
      PrefixParts(m, i, ['T', kind], A.EncodeType(t));
      PrefixChar(m, i, ['T', kind]);
      TypeRead(t, m, i + 2, d);
      VirtualDataRead(m, i, next, d, A.TypePieces(t));
    case Guard(name) =>
      PrefixParts(m, i, "GV", A.EncodeName(name));
      NameRead(name, m, i + 2, d);
      GuardRead(m, i, next, d, A.NamePieces(name));
    case Temporary(name) =>
      PrefixParts(m, i, "GR", A.EncodeName(name));
      NameRead(name, m, i + 2, d);
      TemporaryRead(m, i, next, d, A.NamePieces(name));
    case Java(kind, t) =>
      PrefixParts(m, i, ['T', kind], A.EncodeType(t));
      PrefixChar(m, i, ['T', kind]);
      TypeRead(t, m, i + 2, d);
      JavaRead(m, i, next, d, A.TypePieces(t));
    case Hidden(of) =>
      PrefixParts(m, i, "GA", A.EncodeEncoding(of));
      EncodingRead(of, m, i + 2, d);
      HiddenRead(m, i, next, d, A.EncodingPieces(of));
    case Covariant(_, _, _) => CovariantIsRead(symbol, m, i, d);
    case ThunkTo(_, _) => ThunkIsRead(symbol, m, i, d);
    case Construction(t, n, base) => ConstructionIsRead(t, n, base, m, i, d);
    case OffsetThunk(_, _, _) => OffsetThunkIsRead(symbol, m, i, d);
  }

  lemma {:induction false} FunctionIsRead(name: A.Name, params: A.Types, m: string, i: nat, d: Ideal)
    requires var symbol := A.Function(name, params);
      && A.ValidEncoding(symbol) && HasPrefix(m, i, A.EncodeEncoding(symbol))
      && Ending(At(m, i + |A.EncodeEncoding(symbol)|))
    ensures var symbol := A.Function(name, params);
      Reads(G.Encoding(m, i), i + |A.EncodeEncoding(symbol)|, d, A.EncodingPieces(symbol))
    decreases A.Function(name, params), 0
  {
    hide G.Encoding, G.Name, G.OneOrMore, HasPrefix, Meaning, Says, Ends, A.EncodeName, A.EncodeTypes, A.NamePieces;
    var middle := i + |A.EncodeName(name)|;
    PrefixParts(m, i, A.EncodeName(name), A.EncodeTypes(params));
    FirstHere(m, middle, A.EncodeTypes(params), At(m, middle + |A.EncodeTypes(params)|));
    EmptyTypes();
    if params.Types? {
      TypesStart(params);
      NameRead(name, m, i, d);
      TypesRead(params, m, middle);
      FunctionRead(m, i, middle, middle + |A.EncodeTypes(params)|, d, A.NamePieces(name));
    } else {
      NameRead(name, m, i, d);
      ObjectRead(m, i, middle, d, A.NamePieces(name));
      assert A.NamePieces(name) + [] == A.NamePieces(name);
    }
  }

  lemma {:induction false} CovariantIsRead(symbol: A.Encoding, m: string, i: nat, d: Ideal)
    requires symbol.Covariant? && A.ValidEncoding(symbol) && HasPrefix(m, i, A.EncodeEncoding(symbol))
    requires Ending(At(m, i + |A.EncodeEncoding(symbol)|))
    ensures Reads(G.Encoding(m, i), i + |A.EncodeEncoding(symbol)|, d, A.EncodingPieces(symbol))
    decreases symbol, 0
  {
    hide G.Encoding, G.Type, G.CallOffset, HasPrefix, Meaning, Says, Ends, A.EncodeType, A.EncodeOffset;
    var next := i + |A.EncodeEncoding(symbol)|;
    var first, second, of := symbol.first, symbol.second, symbol.of;
    var j := i + 2 + |A.EncodeOffset(first)|;
    var k := j + |A.EncodeOffset(second)|;
    PrefixParts(m, i, "Tc", A.EncodeOffset(first) + (A.EncodeOffset(second) + A.EncodeEncoding(of)));
    PrefixParts(m, i + 2, A.EncodeOffset(first), A.EncodeOffset(second) + A.EncodeEncoding(of));
    PrefixParts(m, j, A.EncodeOffset(second), A.EncodeEncoding(of));
    OffsetRead(m, i + 2, first);
    OffsetRead(m, j, second);
    EncodingRead(of, m, k, d);
    CovariantRead(m, i, j, k, next, d, A.EncodingPieces(of));
  }

  lemma {:induction false} ThunkIsRead(symbol: A.Encoding, m: string, i: nat, d: Ideal)
    requires symbol.ThunkTo? && A.ValidEncoding(symbol) && HasPrefix(m, i, A.EncodeEncoding(symbol))
    requires Ending(At(m, i + |A.EncodeEncoding(symbol)|))
    ensures Reads(G.Encoding(m, i), i + |A.EncodeEncoding(symbol)|, d, A.EncodingPieces(symbol))
    decreases symbol, 0
  {
    hide G.Encoding, G.Type, G.CallOffset, HasPrefix, Meaning, Says, Ends, A.EncodeType, A.EncodeOffset;
    var next := i + |A.EncodeEncoding(symbol)|;
    var offset, of := symbol.offset, symbol.of;
    var j := i + 1 + |A.EncodeOffset(offset)|;
    PrefixParts(m, i, "T", A.EncodeOffset(offset) + A.EncodeEncoding(of));
    PrefixParts(m, i + 1, A.EncodeOffset(offset), A.EncodeEncoding(of));
    PrefixChar(m, i, "T");
    OffsetRead(m, i + 1, offset);
    EncodingRead(of, m, j, d);
    ThunkRead(m, i, j, next, d, A.EncodingPieces(of));
  }

  lemma {:induction false} ConstructionIsRead(t: A.Type, n: nat, base: A.Type, m: string, i: nat, d: Ideal)
    requires A.ValidType(t) && A.ValidType(base)
    requires HasPrefix(m, i, "TC" + (A.EncodeType(t) + (Decimal(n) + ("_" + A.EncodeType(base)))))
    requires Ending(At(m, i + 3 + |A.EncodeType(t)| + |Decimal(n)| + |A.EncodeType(base)|))
    ensures Reads(G.Encoding(m, i), i + 3 + |A.EncodeType(t)| + |Decimal(n)| + |A.EncodeType(base)|, d, A.TypePieces(t))
    decreases A.Construction(t, n, base), 0
  {
    hide G.Encoding, G.Type, HasPrefix, Meaning, Says, Ends, A.EncodeType, A.TypePieces, A.ValidType;
    var middle, number := i + 2 + |A.EncodeType(t)|, Decimal(n) + "_";
    var next := middle + |number| + |A.EncodeType(base)|;
    assert Decimal(n) + ("_" + A.EncodeType(base)) == number + A.EncodeType(base);
    PrefixParts(m, i, "TC", A.EncodeType(t) + (number + A.EncodeType(base)));
    PrefixParts(m, i + 2, A.EncodeType(t), number + A.EncodeType(base));
    PrefixParts(m, middle, number, A.EncodeType(base));
    DecimalDigits(n);
    StartsWith(m, middle, number);
    assert IsDigit(Decimal(n)[0]);
    TypeRead(t, m, i + 2, d);
    TypeRead(base, m, middle + |number|, QUIET);
    ReadsTakes(G.Type(m, middle + |number|), next, QUIET, A.TypePieces(base));
    ConstructionRead(m, i, middle, n, next, d, A.TypePieces(t));
  }

  lemma {:induction false} OffsetThunkIsRead(symbol: A.Encoding, m: string, i: nat, d: Ideal)
    requires symbol.OffsetThunk? && A.ValidEncoding(symbol) && HasPrefix(m, i, A.EncodeEncoding(symbol))
    requires Ending(At(m, i + |A.EncodeEncoding(symbol)|))
    ensures Reads(G.Encoding(m, i), i + |A.EncodeEncoding(symbol)|, d, A.EncodingPieces(symbol))
    decreases symbol, 0
  {
    hide G.Encoding, G.Type, G.CallOffset, HasPrefix, Meaning, Says, Ends, A.EncodeType, A.EncodeOffset;
    var next := i + |A.EncodeEncoding(symbol)|;
    var kind, offset, of := symbol.kind, symbol.offset, symbol.of;
    var j := i + 2 + |A.EncodeOffset(offset)|;
    PrefixParts(m, i, ['T', kind], A.EncodeOffset(offset) + A.EncodeEncoding(of));
    PrefixParts(m, i + 2, A.EncodeOffset(offset), A.EncodeEncoding(of));
    PrefixChar(m, i, ['T', kind]);
    OffsetRead(m, i + 2, offset);
    EncodingRead(of, m, j, d);
    OffsetThunkRead(m, i, j, next, d, A.EncodingPieces(of));
  }
}
