// The text of a symbol never ends in "< <": a piece ends in '<' only behind the word operator.
module PlainText {
  import opened CStrings
  import opened Options
  import opened SpareRoom
  import opened Abi

  predicate EndsPlainly(s: string) { s != "" && s[|s| - 1] != '<' }

  ghost predicate Plain(ps: seq<string>)
  {
    forall k {:trigger ps[k]} :: 0 <= k < |ps| && !EndsPlainly(ps[k]) ==>
      k > 0 && ps[k - 1] == "operator" && (ps[k] == "<" || ps[k] == "<<")
  }

  lemma PlainBoth(ps: seq<string>, qs: seq<string>)
    requires Plain(ps) && Plain(qs)
    ensures Plain(ps + qs)
  {
    forall k | 0 <= k < |ps + qs| && !EndsPlainly((ps + qs)[k])
      ensures k > 0 && (ps + qs)[k - 1] == "operator" && ((ps + qs)[k] == "<" || (ps + qs)[k] == "<<")
    {
      if k < |ps| {
        assert (ps + qs)[k] == ps[k];
      } else {
        assert (ps + qs)[k] == qs[k - |ps|];
      }
    }
  }

  // ----- joined pieces ----------------------------------------------------------------------

  lemma {:induction false} JoinedLast(text: string, ps: seq<string>, p: string)
    ensures Joined(text, ps + [p]) == Spaced(Joined(text, ps), p)
    decreases |ps|
  {
    if ps == [] {
      assert [] + [p] == [p];
    } else {
      assert (ps + [p])[0] == ps[0] && (ps + [p])[1..] == ps[1..] + [p];
      JoinedLast(Spaced(text, ps[0]), ps[1..], p);
    }
  }

  lemma SpacedChars(text: string)
    requires EndsSpaced(text)
    ensures text[|text| - 1] == '<' && text[|text| - 2] == ' '
  {
    assert text[|text| - 3..][1] == ' ' && text[|text| - 3..][2] == '<';
  }

  lemma PlainEnd(front: string, p: string)
    requires EndsPlainly(p)
    ensures Spaced(front, p)[|Spaced(front, p)| - 1] == p[|p| - 1] && !EndsSpaced(Spaced(front, p))
  {
    if EndsSpaced(Spaced(front, p)) {
      SpacedChars(Spaced(front, p));
    }
  }

  lemma OperatorEnd(front: string, p: string)
    requires front != "" && front[|front| - 1] == 'r' && (p == "<" || p == "<<")
    ensures !EndsSpaced(Spaced(front, p))
  {
    if EndsSpaced(Spaced(front, p)) {
      SpacedChars(Spaced(front, p));
    }
  }

  lemma LastSpaced(ps: seq<string>) returns (front: string)
    requires ps != []
    ensures front == Joined("", ps[..|ps| - 1]) && Joined("", ps) == Spaced(front, ps[|ps| - 1])
  {
    var last := |ps| - 1;
    assert ps == ps[..last] + [ps[last]];
    JoinedLast("", ps[..last], ps[last]);
    front := Joined("", ps[..last]);
  }

  lemma NeverSpaced(ps: seq<string>)
    requires Plain(ps)
    ensures !EndsSpaced(Joined("", ps)) && (ps != [] ==> Joined("", ps) != "")
  {
    hide Joined, Spaced, EndsSpaced;
    if ps == [] {
      assert Joined("", ps) == "" by {
        NothingJoined();
      }
      assert !EndsSpaced("") by {
        TooShort();
      }
    } else {
      var last := |ps| - 1;
      var front := LastSpaced(ps);
      SomethingSpaced(front, ps[last]);
      if EndsPlainly(ps[last]) {
        PlainEnd(front, ps[last]);
      } else {
        var more := LastSpaced(ps[..last]);
        PlainEnd(more, ps[last - 1]);
        SomethingSpaced(more, ps[last - 1]);
        OperatorEnd(front, ps[last]);
      }
    }
  }

  lemma NothingJoined()
    ensures Joined("", []) == ""
  {
  }

  lemma TooShort()
    ensures !EndsSpaced("")
  {
  }

  lemma SomethingSpaced(front: string, p: string)
    requires p != ""
    ensures Spaced(front, p) != ""
  {
  }

  // ----- the pieces of a symbol -----------------------------------------------------------------

  lemma PlainOne(s: string)
    requires EndsPlainly(s)
    ensures Plain([s])
  {
  }

  lemma NamePlain(name: string)
    requires IsIdentifier(name)
    ensures Plain([ShownName(name)])
  {
    assert IsIdentifierChar(name[|name| - 1]);
  }

  lemma OperatorPlain(op: Operator)
    ensures Plain(OperatorPieces(op))
  {
    var symbol := op.Symbol();
    assert EndsPlainly("operator") && EndsPlainly(" ");
    assert EndsPlainly(symbol) || (!op.IsWord() && (symbol == "<" || symbol == "<<"));
  }

  lemma BuiltinPlain(b: Builtin)
    ensures Plain([b.Text()])
  {
  }

  lemma StandardPlain(s: Standard)
    ensures Plain(["std", "::", s.Text()])
  {
  }

  lemma ArgsPlain(args: Args)
    ensures Plain(ArgsPieces(args))
  {
    PlainOne("<>");
  }

  lemma {:induction false} TypePlain(t: Type)
    requires ValidType(t)
    ensures Plain(TypePieces(t))
    decreases t
  {
    hide Plain;
    PlainOne("?");
    PlainOne("<>");
    match t
    case Qualified(_, of) => TypePlain(of);
    case Marked(_, of) => TypePlain(of);
    case Pack(of) => TypePlain(of);
    case Decltype(_, e) => ExprPlain(e);
    case VendorQualified(name, of) =>
      NamePlain(name);
      TypePlain(of);
      PlainBoth([ShownName(name)], TypePieces(of));
    case Fundamental(b) => BuiltinPlain(b);
    case VendorType(name) => NamePlain(name);
    case FunctionType(_, _) => PlainOne("()");
    case Class(name) => WholeNamePlain(name);
    case Array(_, of) => TypePlain(of);
    case OpenArray(of) => TypePlain(of);
    case DependentArray(e, of) =>
      ExprPlain(e);
      TypePlain(of);
      PlainBoth(ExprPieces(e), TypePieces(of));
    case MemberOf(owner, of) =>
      TypePlain(owner);
      TypePlain(of);
      PlainBoth(TypePieces(owner), TypePieces(of));
    case Abbreviated(s) => StandardPlain(s);
    case Seen(_) =>
    case Param(_) =>
    case ParamTemplate(_, _) =>
      PlainBoth(["?"], ["<>"]);
      assert ["?"] + ["<>"] == ["?", "<>"];
  }

  lemma {:induction false} LiteralPlain(l: Literal)
    requires ValidLiteral(l)
    ensures Plain(LiteralPieces(l))
    decreases l
  {
    hide Plain;
    match l
    case Integer(t, _) => TypePlain(t);
    case Float(t, _) => TypePlain(t);
    case External(symbol) => EncodingPlain(symbol);
    case Unprefixed(symbol) => EncodingPlain(symbol);
  }

  lemma {:induction false} ExprPlain(e: Expr)
    requires ValidExpr(e)
    ensures Plain(ExprPieces(e))
    decreases e
  {
    hide Plain, OperatorPieces;
    match e
    case ParamExpr(_) => PlainOne("?");
    case LiteralExpr(l) => LiteralPlain(l);
    case Unary(op, a) =>
      OperatorPlain(op);
      ExprPlain(a);
      PlainBoth(OperatorPieces(op), ExprPieces(a));
    case Converted(t, a) =>
      PlainOne("operator ");
      TypePlain(t);
      ExprPlain(a);
      PlainBoth(["operator "], TypePieces(t));
      PlainBoth(["operator "] + TypePieces(t), ExprPieces(a));
    case Binary(op, a, b) =>
      OperatorPlain(op);
      ExprPlain(a);
      ExprPlain(b);
      PlainBoth(OperatorPieces(op), ExprPieces(a));
      PlainBoth(OperatorPieces(op) + ExprPieces(a), ExprPieces(b));
    case Ternary(op, a, b, c) =>
      OperatorPlain(op);
      ExprPlain(a);
      ExprPlain(b);
      ExprPlain(c);
      PlainBoth(OperatorPieces(op), ExprPieces(a));
      PlainBoth(OperatorPieces(op) + ExprPieces(a), ExprPieces(b));
      PlainBoth(OperatorPieces(op) + ExprPieces(a) + ExprPieces(b), ExprPieces(c));
    case SizeofExpr(t) => TypePlain(t);
    case Scoped(t, name, args) =>
      TypePlain(t);
      NamePlain(name);
      ArgsPlain(args);
      PlainBoth(TypePieces(t), [ShownName(name)]);
      PlainBoth(TypePieces(t) + [ShownName(name)], ArgsPieces(args));
  }

  lemma {:induction false} UnqualifiedPlain(u: Unqualified)
    requires ValidUnqualified(u)
    ensures Plain(UnqualifiedPieces(u))
    decreases u
  {
    hide Plain, OperatorPieces;
    match u
    case Identifier(name, _) => NamePlain(name);
    case OfOperator(op) => OperatorPlain(op);
    case Cast(t) =>
      PlainOne("operator ");
      TypePlain(t);
      PlainBoth(["operator "], TypePieces(t));
    case VendorOperator(_, name) => NamePlain(name);
    case Local(name, _, _) => NamePlain(name);
  }

  lemma {:induction false} WholeNamePlain(name: Name)
    requires ValidName(name)
    ensures Plain(NamePieces(name))
    decreases name
  {
    hide Plain, ArgsPieces;
    match name
    case Nested(_, path) =>
      EmptyPlain();
      PathPlain(path, []);
    case Entity(of, inner, _) =>
      EncodingPlain(of);
      PlainOne("::");
      WholeNamePlain(inner);
      PlainBoth(EncodingPieces(of), ["::"]);
      PlainBoth(EncodingPieces(of) + ["::"], NamePieces(inner));
    case StringLiteral(of, _) => EncodingPlain(of);
    case Unscoped(std, u, args) =>
      var front := if std then ["std::"] else [];
      PlainOne("std::");
      EmptyPlain();
      UnqualifiedPlain(u);
      ArgsPlain(args);
      PlainBoth(front, UnqualifiedPieces(u));
      PlainBoth(front + UnqualifiedPieces(u), ArgsPieces(args));
    case StandardTemplate(s, args) =>
      StandardPlain(s);
      ArgsPlain(args);
      PlainBoth(["std", "::", s.Text()], ArgsPieces(args));
    case SeenTemplate(_, args) =>
      PlainOne("?");
      ArgsPlain(args);
      PlainBoth(["?"], ArgsPieces(args));
  }

  lemma EmptyPlain()
    ensures Plain([])
  {
  }

  lemma {:induction false} PathPlain(path: Path, before: seq<string>)
    requires ValidPath(path, before) && Plain(before)
    ensures Plain(PathPieces(path, before))
    decreases path
  {
    hide Plain, ItemPieces, ArgsPieces;
    match path
    case EndOfPath => EmptyPlain();
    case Path(item, args, tail) =>
      var between, own := if before == [] then [] else ["::"], ComponentPieces(item, args, before);
      EmptyPlain();
      PlainOne("::");
      ItemPlain(item, before);
      ArgsPlain(args);
      PlainBoth(between, ItemPieces(item, before));
      PlainBoth(between + ItemPieces(item, before), ArgsPieces(args));
      PlainBoth(before, own);
      PathPlain(tail, before + own);
      PlainBoth(own, PathPieces(tail, before + own));
  }

  lemma {:induction false} ItemPlain(item: Item, before: seq<string>)
    requires ValidItem(item, before) && Plain(before)
    ensures Plain(ItemPieces(item, before))
    decreases item
  {
    hide Plain;
    match item
    case Named(u) => UnqualifiedPlain(u);
    case ParamItem(_) => PlainOne("?");
    case SeenItem(_) => PlainOne("?");
    case StandardItem(s) => StandardPlain(s);
    case Std => PlainOne("std");
    case Ctor(_) =>
      LastPlain(before);
      PlainOne(LastName(before));
    case Dtor(_) =>
      LastPlain(before);
      PlainOne("~");
      PlainOne(LastName(before));
      PlainBoth(["~"], [LastName(before)]);
      assert ["~"] + [LastName(before)] == ["~", LastName(before)];
  }

  // A name remembered does not end in '<'.
  lemma {:induction false} LastPlain(before: seq<string>)
    requires Plain(before) && LastName(before) != ""
    ensures EndsPlainly(LastName(before))
    decreases |before|
  {
    var last := |before| - 1;
    if !StartsName(before[last]) {
      assert Plain(before[..last]);
      LastPlain(before[..last]);
    }
  }

  lemma {:induction false} EncodingPlain(symbol: Encoding)
    requires ValidEncoding(symbol)
    ensures Plain(EncodingPieces(symbol))
    decreases symbol
  {
    hide Plain;
    match symbol
    case Function(name, params) =>
      WholeNamePlain(name);
      EmptyPlain();
      PlainOne("()");
      PlainBoth(NamePieces(name), if params.NoTypes? then [] else ["()"]);
    case VirtualData(_, t) => TypePlain(t);
    case Guard(name) => WholeNamePlain(name);
    case Temporary(name) => WholeNamePlain(name);
    case Covariant(_, _, of) => EncodingPlain(of);
    case ThunkTo(_, of) => EncodingPlain(of);
    case Construction(t, _, _) => TypePlain(t);
    case Java(_, t) => TypePlain(t);
    case Hidden(of) => EncodingPlain(of);
    case OffsetThunk(_, _, of) => EncodingPlain(of);
  }
}
