// What encodings start with.
module FirstCharacters {
  import opened CStrings
  import opened Decimals
  import opened Options
  import opened Tables
  import opened Abi

  // Qualifiers start with one of these, and no other type does.
  predicate StartsQualifiers(c: char) { c in {'r', 'V', 'K'} }

  predicate StartsUnqualifiedType(c: char)
  {
    && (IsLower(c) || IsDigit(c) || c in {'O', 'P', 'R', 'C', 'G', 'D', 'U', 'F', 'N', 'Z', 'L', 'S', 'A', 'M', 'T'})
    && !StartsQualifiers(c)
  }

  predicate StartsType(c: char) { StartsUnqualifiedType(c) || StartsQualifiers(c) }

  lemma WordStarts(name: string)
    ensures Word(name) != "" && IsDigit(Word(name)[0])
  {
    DecimalDigits(|name|);
    assert IsDigit(Decimal(|name|)[0]);
  }

  // Names of types start with N, Z, S, L or a digit.
  lemma ClassStarts(name: Name)
    requires NamesType(name)
    ensures EncodeName(name) != ""
    ensures IsDigit(EncodeName(name)[0]) || EncodeName(name)[0] in {'N', 'Z', 'S', 'L'}
  {
    hide Word;
    match name
    case Unscoped(std, u, args) =>
      if u.Identifier? {
        WordStarts(u.name);
      }
    case _ =>
  }

  lemma TypeStarts(t: Type)
    requires ValidType(t)
    ensures EncodeType(t) != ""
    ensures if t.Qualified? then StartsQualifiers(EncodeType(t)[0]) else StartsUnqualifiedType(EncodeType(t)[0])
  {
    hide EncodeName, EncodeExpr, EncodeTypes, EncodeArgs, Word, Builtin.Code;
    match t
    case Fundamental(b) => BuiltinEntry(b);
    case Class(name) => ClassStarts(name);
    case _ =>
  }

  lemma TypesStart(types: Types)
    requires types.Types? && ValidTypes(types)
    ensures EncodeTypes(types) != "" && StartsType(EncodeTypes(types)[0])
  {
    hide EncodeType;
    TypeStarts(types.head);
  }

  predicate StartsArgument(c: char) { StartsType(c) || c in {'I', 'J', 'X'} }

  lemma ArgStarts(arg: Arg)
    requires ValidArg(arg)
    ensures EncodeArg(arg) != "" && StartsArgument(EncodeArg(arg)[0])
    ensures EncodeArg(arg)[0] == 'I' ==> arg.OfPack? && arg.open == 'I'
    ensures arg.OfType? ==> StartsType(EncodeArg(arg)[0])
  {
    hide EncodeType, EncodeList, EncodeExpr;
    if arg.OfType? {
      TypeStarts(arg.t);
    }
  }

  // A list of arguments and the E behind it.
  lemma ListStarts(args: Args)
    requires ValidArgs(args)
    ensures var c := if args.NoArgs? then 'E' else At(EncodeList(args), 0);
      (c == 'E' || StartsArgument(c)) && (args.Args? ==> EncodeList(args) != "") && (c == 'I' ==> OpensWithI(args))
  {
    hide EncodeArg;
    if args.Args? {
      ArgStarts(args.head);
    }
  }

  lemma ExprStarts(e: Expr)
    requires ValidExpr(e)
    ensures |EncodeExpr(e)| >= 2 && (IsLower(EncodeExpr(e)[0]) || EncodeExpr(e)[0] in {'T', 'L'})
    ensures EncodeExpr(e)[0] == 'n' ==> !IsDigit(EncodeExpr(e)[1])
  {
    hide EncodeType, EncodeEncoding, Operator.Code;
    match e
    case LiteralExpr(l) =>
    case Unary(op, _) => DecodedCode(op);
    case Binary(op, _, _) => DecodedCode(op);
    case Ternary(op, _, _, _) => DecodedCode(op);
    case _ =>
  }

  // Names start with N, Z, S, L, a digit or a lower-case letter.
  lemma UnqualifiedStarts(u: Unqualified)
    ensures EncodeUnqualified(u) != ""
    ensures var c := EncodeUnqualified(u)[0]; IsDigit(c) || IsLower(c) || c == 'L'
    ensures FirstItem(Named(u)) ==> EncodeUnqualified(u)[0] != 'r'
  {
    hide EncodeType, Operator.Code, Word;
    match u
    case Identifier(name, _) => WordStarts(name);
    case OfOperator(op) => OperatorStarts(op);
    case _ =>
  }

  lemma OperatorStarts(op: Operator)
    ensures |op.Code()| == 2 && IsLower(op.Code()[0])
    ensures op !in {Remainder, RemainderAssign, ShiftRight, ShiftRightAssign} ==> op.Code()[0] != 'r'
  {
  }

  predicate StartsItem(c: char) { IsDigit(c) || IsLower(c) || c in {'L', 'T', 'S', 'C', 'D'} }

  lemma ItemStarts(item: Item)
    ensures EncodeItem(item) != "" && StartsItem(EncodeItem(item)[0])
    ensures FirstItem(item) ==> !StartsQualifiers(EncodeItem(item)[0])
    ensures item.Named? ==> EncodeItem(item)[0] !in {'S', 'T'}
  {
    hide EncodeUnqualified;
    if item.Named? {
      UnqualifiedStarts(item.u);
    }
  }

  // A path and the E behind it.
  lemma PathStarts(path: Path)
    ensures path.Path? ==> EncodePath(path) != "" && StartsItem(EncodePath(path)[0])
    ensures path.Path? && FirstItem(path.item) ==> !StartsQualifiers(EncodePath(path)[0])
  {
    hide EncodeItem;
    if path.Path? {
      ItemStarts(path.item);
    }
  }

  // A name of a type does not end in a number.
  lemma {:induction false} TypesEndPlainly(name: Name)
    requires NamesType(name)
    ensures !EndsInNumber(name) && !name.StringLiteral?
    decreases name
  {
    if name.Entity? {
      TypesEndPlainly(name.name);
    }
  }

  // What stands in front of a text, or of c if the text is empty.
  lemma FirstHere(m: string, i: nat, s: string, c: char)
    requires HasPrefix(m, i, s) && At(m, i + |s|) == c
    ensures At(m, i) == if s == "" then c else s[0]
  {
  }
}
