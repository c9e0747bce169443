// The parts of a name that hold no types: parameters, substitutions, operators, constructors,
// source names and their tags.  Where a part is encoded it is read, and prints its text.
module ReadingParts {
  import opened CStrings
  import opened Decimals
  import opened Options
  import opened Reading
  import opened Refusals
  import opened Tables
  import opened Trace
  import opened TraceTheorems
  import A = Abi
  import G = Grammar

  // What may follow a type or a name: no template arguments, tags or discriminators.
  predicate Closed(c: char) { c != 'I' && c != 'B' && c != '_' }

  // What may follow an encoding: the end, a suffix, or the E of what is around it.
  predicate Ending(c: char) { c in {'\0', '.', '@', 'E'} }

  // ----- parameters and substitutions --------------------------------------------------------

  lemma ParamRead(m: string, i: nat, n: Option<nat>, d: Ideal)
    requires HasPrefix(m, i, A.EncodeParam(n))
    ensures At(m, i) == 'T' && Reads(G.TemplateParam(m, i), i + |A.EncodeParam(n)|, d, ["?"])
  {
    hide HasPrefix, Meaning, Says;
    match n
    case None =>
      assert A.EncodeParam(n) == "T_";
      PrefixChar(m, i, "T_");
      TokensHere(m, i, 'T', '_');
      ReadPut(G.TwoTokens(m, i, 'T', '_'), i + 2, d, "?");
    case Some(k) =>
      PrefixParts(m, i, "T", Decimal(k) + "_");
      PrefixParts(m, i + 1, Decimal(k), "_");
      var end := i + 1 + |Decimal(k)|;
      PrefixChar(m, i, "T");
      PrefixChar(m, end, "_");
      LengthRead(m, i + 1, k, end);
      NumberThen(m, i, end, d);
  }

  lemma TokensHere(m: string, i: nat, c: char, c': char)
    requires i + 1 < |m| && m[i] == c != '\0' && m[i + 1] == c' != '\0'
    ensures Skips(G.TwoTokens(m, i, c, c'), i + 2)
  {
  }

  // T, a number and _.
  lemma NumberThen(m: string, i: nat, end: nat, d: Ideal)
    requires i + 1 < end < |m| && m[i] == 'T' && m[end] == '_' && m[i + 1] != '_'
    requires G.Number(m, i + 1) == G.Accept(end, Nil)
    ensures Reads(G.TemplateParam(m, i), end + 1, d, ["?"])
  {
    hide G.Number;
    var x := G.TwoTokens(m, i, 'T', '_').AndPut("?");
    var a := G.Token(m, i, 'T');
    var b := a.Before(G.Number(m, i + 1));
    var c := b.Before(G.Token(m, end, '_'));
    assert Skips(a, i + 1) && Skips(G.Number(m, i + 1), end) && Skips(G.Token(m, end, '_'), end + 1);
    SkipBoth(a, G.Number(m, i + 1), i + 1, end);
    SkipBoth(b, G.Token(m, end, '_'), end, end + 1);
    ReadPut(c, end + 1, d, "?");
    ReadSecond(x, c.AndPut("?"), end + 1, d, ["?"]);
    assert G.TemplateParam(m, i) == x.Before(c.OrBackTo(i).AndPut("?"));
  }

  lemma SeenRead(m: string, i: nat, id: string, d: Ideal)
    requires A.IsSeqId(id) && HasPrefix(m, i, A.EncodeSeen(id))
    ensures At(m, i) == 'S' && At(m, i + 1) != 't' && Reads(G.Substitution(m, i), i + |A.EncodeSeen(id)|, d, ["?"])
  {
    hide HasPrefix, Meaning, Says, G.SubstitutionAbbreviation;
    PrefixParts(m, i, "S", id + "_");
    PrefixParts(m, i + 1, id, "_");
    var end := i + 1 + |id|;
    PrefixChar(m, i, "S");
    PrefixChar(m, end, "_");
    PrefixChars(m, i + 1, id);
    forall k | i + 1 <= k < end
      ensures IsSeqIdChar(m[k])
    {
      assert m[k] == id[k - (i + 1)] && IsSeqIdChar(id[k - (i + 1)]);
    }
    var x := G.TwoTokens(m, i, 'S', '_').AndPut("?");
    if id == "" {
      TokensHere(m, i, 'S', '_');
      ReadPut(G.TwoTokens(m, i, 'S', '_'), i + 2, d, "?");
    } else {
      RunEndIs(m, i + 1, end, IsSeqIdChar);
      var a := G.Token(m, i, 'S');
      var b := a.Before(G.CharRun(m, i + 1, IsSeqIdChar));
      var c := b.Before(G.Token(m, end, '_'));
      TokenRead(m, i, 'S');
      TokenRead(m, end, '_');
      RunRead(m, i + 1, end, IsSeqIdChar);
      SkipBoth(a, G.CharRun(m, i + 1, IsSeqIdChar), i + 1, end);
      SkipBoth(b, G.Token(m, end, '_'), end, end + 1);
      ReadPut(c, end + 1, d, "?");
      assert Fails(x);
      ReadSecond(x, c.AndPut("?"), end + 1, d, ["?"]);
      assert c.OrBackTo(i) == c;
      assert G.Substitution(m, i) == x.Before(c.OrBackTo(i).AndPut("?"));
    }
  }

  lemma RunRead(m: string, i: nat, end: nat, p: char -> bool)
    requires i < end <= |m| && RunEnd(m, i, p) == end
    ensures Skips(G.CharRun(m, i, p), end)
  {
  }

  lemma StandardRead(m: string, i: nat, s: A.Standard, d: Ideal)
    requires HasPrefix(m, i, ['S', s.Code()])
    ensures At(m, i) == 'S' && At(m, i + 1) != 't' && Reads(G.Substitution(m, i), i + 2, d, ["std", "::", s.Text()])
  {
    hide HasPrefix, Find, Table.Entries;
    PrefixChar(m, i, ['S', s.Code()]);
    StandardFound(s);
    AbbreviationRead(m, i, s.Text(), d);
  }

  lemma StdRead(m: string, i: nat, d: Ideal)
    requires HasPrefix(m, i, "St")
    ensures At(m, i) == 'S' && Reads(G.Substitution(m, i), i + 2, d, ["std"])
  {
    hide HasPrefix, Find, Table.Entries;
    PrefixChar(m, i, "St");
    StdFound();
    AbbreviationRead(m, i, "", d);
  }

  lemma AbbreviationRead(m: string, i: nat, text: string, d: Ideal)
    requires i + 1 < |m| && m[i] == 'S' && IsLower(m[i + 1]) && '\0' !in text
    requires FindSubstitution(m[i + 1]) < |Substitutions.Entries()|
    requires Substitutions.Entries()[FindSubstitution(m[i + 1])].realName == text
    ensures Reads(G.Substitution(m, i), i + 2, d, if text == "" then ["std"] else ["std", "::", text])
  {
    hide Find, Table.Entries, Meaning, Says, G.SubstitutionTrace;
    var pieces := if text == "" then ["std"] else ["std", "::", text];
    AbbreviationPrints(text, d);
    assert G.SubstitutionAbbreviation(m, i) == G.Accept(i + 2, G.SubstitutionTrace(text));
    RunEndIs(m, i + 1, i + 1, IsSeqIdChar);
    var x := G.TwoTokens(m, i, 'S', '_').AndPut("?");
    var a := G.Token(m, i, 'S');
    var b := a.Before(G.CharRun(m, i + 1, IsSeqIdChar));
    var y := x.Before(b.OrBackTo(i).AndPut("?"));
    assert Fails(y);
    ReadSecond(y, G.SubstitutionAbbreviation(m, i), i + 2, d, pieces);
    assert G.Substitution(m, i) == y.Before(G.SubstitutionAbbreviation(m, i));
  }

  lemma AbbreviationPrints(text: string, d: Ideal)
    requires '\0' !in text
    ensures Meaning(G.SubstitutionTrace(text), d) == Says(d, if text == "" then ["std"] else ["std", "::", text])
    ensures d.append ==> Ends(G.SubstitutionTrace(text), d)
  {
    var e := Meaning(Put("std"), d);
    assert d.append ==> Ends(Then(Put("::"), Put(text)), e) || text == "";
    SaysOne(d, "std");
    SaysThree(d, "std", "::", text);
  }

  lemma DiscRead(m: string, i: nat, disc: Option<nat>)
    requires HasPrefix(m, i, A.EncodeDisc(disc))
    requires if disc == None then At(m, i) != '_' else !IsDigit(At(m, i + |A.EncodeDisc(disc)|))
    ensures Skips(G.Discriminator(m, i).Optional(), i + |A.EncodeDisc(disc)|)
  {
    hide HasPrefix;
    match disc
    case None => PrefixIs(m, i, "");
    case Some(k) =>
      PrefixParts(m, i, "_", Decimal(k));
      PrefixChar(m, i, "_");
      LengthRead(m, i + 1, k, i + 1 + |Decimal(k)|);
  }

  lemma SaysNothing(d: Ideal)
    ensures Says(d, []) == d
  {
  }

  // ----- operators, constructors and destructors ------------------------------------------------

  lemma OperatorRead(m: string, i: nat, op: A.Operator, d: Ideal)
    requires HasPrefix(m, i, op.Code())
    ensures IsLower(At(m, i)) && Reads(G.OperatorName(m, i), i + 2, d, A.OperatorPieces(op))
  {
    hide HasPrefix, Find, Table.Entries, A.Operator.Code, A.Operator.Symbol, A.Operator.IsWord, Meaning, Says,
         G.OperatorTrace, A.OperatorPieces, G.CastOperator, G.VendorOperator;
    DecodedCode(op);
    PrefixChar(m, i, op.Code());
    OperatorFound(op);
    Words(op);
    CodesLeftOut(op);
    NotCast(m, i, op.Code());
    SymbolRead(op, d);
    var x := G.CastOperator(m, i);
    var y := x.Before(G.VendorOperator(m, i));
    ReadSecond(y, G.OperatorSymbol(m, i), i + 2, d, A.OperatorPieces(op));
  }

  lemma NotCast(m: string, i: nat, code: string)
    requires |code| == 2 && code != "cv" && i + 1 < |m| && m[i] == code[0] && m[i + 1] == code[1] && IsAlpha(code[1])
    ensures G.CastOperator(m, i).Reject? && G.VendorOperator(m, i).Reject?
  {
    assert !(m[i] == 'c' && m[i + 1] == 'v') by {
      assert code == [code[0], code[1]];
    }
  }

  lemma SymbolRead(op: A.Operator, d: Ideal)
    requires op.IsWord() <==> IsLower(At(op.Symbol(), 0))
    requires op.Symbol() != ""
    ensures Meaning(G.OperatorTrace(op.Symbol()), d) == Says(d, A.OperatorPieces(op))
    ensures A.OperatorPieces(op) != [] && (d.append ==> Ends(G.OperatorTrace(op.Symbol()), d))
  {
    hide A.Operator.Symbol, A.Operator.IsWord, Says;
    SaysTwo(d, "operator", op.Symbol());
    SaysThree(d, "operator", " ", op.Symbol());
    if d.append {
      SymbolEnds(Meaning(Put("operator"), d), op.Symbol());
    }
  }

  lemma SymbolEnds(d: Ideal, symbol: string)
    requires symbol != "" && d.append
    ensures Ends(Put(symbol), d) && Ends(Then(Put(" "), Put(symbol)), d)
  {
    assert Meaning(Put(" "), d).append;
    assert Ends(Put(symbol), Meaning(Put(" "), d));
  }

  // cv and a type.
  lemma CastRead(m: string, i: nat, next: nat, d: Ideal, pieces: seq<string>)
    requires i + 2 <= |m| && m[i] == 'c' && m[i + 1] == 'v'
    requires Reads(G.Type(m, i + 2), next, Says(d, ["operator "]).(nest := 0), pieces)
    ensures Reads(G.OperatorName(m, i), next, d, ["operator "] + pieces)
  {
    hide G.Type;
    TokensHere(m, i, 'c', 'v');
    var a := G.TwoTokens(m, i, 'c', 'v').AndPut("operator ");
    ReadPut(G.TwoTokens(m, i, 'c', 'v'), i + 2, d, "operator ");
    var b := G.Type(m, i + 2).AtLevelZero();
    ReadAtLevelZero(G.Type(m, i + 2), next, Says(d, ["operator "]), pieces);
    ReadBoth(a, b, i + 2, next, d, ["operator "], pieces);
    assert G.CastOperator(m, i) == a.Before(b);
  }

  // v, a digit and a source name.
  lemma VendorRead(m: string, i: nat, digit: char, name: string, d: Ideal)
    requires IsDigit(digit) && A.IsIdentifier(name) && HasPrefix(m, i, ['v', digit] + A.Word(name))
    ensures At(m, i) == 'v'
    ensures Reads(G.OperatorName(m, i), i + 2 + |A.Word(name)|, d, [A.ShownName(name)])
  {
    hide HasPrefix, A.Word, G.SourceName;
    PrefixParts(m, i, ['v', digit], A.Word(name));
    PrefixChar(m, i, ['v', digit]);
    SourceNameRead(m, i + 2, name, d);
    DigitIn(digit);
    var a := G.Token(m, i, 'v');
    var b := a.Before(G.CharClass(m, i + 1, "0123456789"));
    var next := i + 2 + |A.Word(name)|;
    SkipAndRead(b, G.SourceName(m, i + 2), i + 2, next, d, [A.ShownName(name)]);
    assert G.VendorOperator(m, i) == b.Before(G.SourceName(m, i + 2));
    ReadSecond(G.CastOperator(m, i), G.VendorOperator(m, i), next, d, [A.ShownName(name)]);
  }

  lemma DigitIn(c: char)
    requires IsDigit(c)
    ensures c in "0123456789"
  {
    var digits := "0123456789";
    assert digits[c as int - '0' as int] == c;
  }

  // C1 to C3 and D0 to D2 print the last name once more.
  lemma CtorRead(m: string, i: nat, kind: char, d: Ideal)
    requires kind in {'1', '2', '3'} && HasPrefix(m, i, ['C', kind]) && (d.append ==> d.name != "")
    ensures At(m, i) == 'C' && Reads(G.CtorDtorName(m, i), i + 2, d, [d.name])
  {
    hide HasPrefix;
    PrefixChar(m, i, ['C', kind]);
    SaysOne(d, d.name);
    SilenceFirst(Then(Nil, Nil), PutPrevName, d);
    assert d.append ==> Ends(PutPrevName, d);
    assert G.CtorDtorName(m, i) == G.Accept(i + 2, Then(Then(Nil, Nil), PutPrevName));
  }

  lemma DtorRead(m: string, i: nat, kind: char, d: Ideal)
    requires kind in {'0', '1', '2'} && HasPrefix(m, i, ['D', kind]) && (d.append ==> d.name != "")
    ensures At(m, i) == 'D' && Reads(G.CtorDtorName(m, i), i + 2, d, ["~", d.name])
  {
    hide HasPrefix;
    PrefixChar(m, i, ['D', kind]);
    SaysTwo(d, "~", d.name);
    var t := Then(Put("~"), PutPrevName);
    assert Meaning(t, d) == Say(Say(d, "~"), d.name);
    assert d.append ==> Ends(PutPrevName, Meaning(Put("~"), d)) && Ends(t, d);
    var u := Then(Abandon(Nil), Then(Nil, Nil));
    assert Meaning(Abandon(Nil), d) == d && Meaning(Then(Nil, Nil), d) == d;
    assert Meaning(u, d) == d;
    SilenceFirst(u, t, d);
    assert G.CtorDtorName(m, i) == G.Accept(i + 2, Then(u, t));
  }
}
