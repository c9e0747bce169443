// Names: where their parts are read, so are they.
module ReadingNames {
  import opened CStrings
  import opened Decimals
  import opened Options
  import opened Reading
  import opened ReadingParts
  import opened Refusals
  import opened Tables
  import opened Trace
  import opened TraceTheorems
  import A = Abi
  import G = Grammar

  // ----- unqualified names ---------------------------------------------------------------------

  lemma TagRead(m: string, i: nat, tag: string)
    requires A.IsIdentifier(tag) && HasPrefix(m, i, "B" + A.Word(tag))
    ensures At(m, i) == 'B' && Takes(G.Call(G.FAbiTag, m, i), i + 1 + |A.Word(tag)|)
  {
    hide G.SourceName, A.Word;
    PrefixParts(m, i, "B", A.Word(tag));
    PrefixChar(m, i, "B");
    SourceNameIs(m, i + 1, tag);
  }

  lemma {:induction false} TagsTaken(m: string, i: nat, tags: A.Tags)
    requires A.ValidTags(tags) && HasPrefix(m, i, A.EncodeTags(tags)) && At(m, i + |A.EncodeTags(tags)|) != 'B'
    ensures Takes(G.ZeroOrMore(G.FAbiTag, m, i), i + |A.EncodeTags(tags)|)
    decreases tags
  {
    hide HasPrefix, G.Call, A.Word;
    match tags
    case NoTags =>
      PrefixIs(m, i, "");
      TagRefused(m, i);
    case Tags(head, tail) =>
      var tag := "B" + A.Word(head);
      assert A.EncodeTags(tags) == tag + A.EncodeTags(tail);
      PrefixParts(m, i, tag, A.EncodeTags(tail));
      TagRead(m, i, head);
      TagsTaken(m, i + |tag|, tail);
  }

  lemma TagRefused(m: string, i: nat)
    requires i <= |m| && At(m, i) != 'B'
    ensures Refuses(G.Call(G.FAbiTag, m, i), i)
  {
  }

  // Tags are read and not printed.
  lemma TagsRead(m: string, i: nat, tags: A.Tags)
    requires A.ValidTags(tags) && HasPrefix(m, i, A.EncodeTags(tags)) && At(m, i + |A.EncodeTags(tags)|) != 'B'
    ensures Skips(G.AbiTags(m, i).Optional(), i + |A.EncodeTags(tags)|)
  {
    hide HasPrefix, G.Call, A.Word, G.ZeroOrMore, Meaning, Says;
    match tags
    case NoTags =>
      PrefixIs(m, i, "");
      AbiTagsRefuses(m, i);
      ReadNothing(G.AbiTags(m, i), i);
    case Tags(head, tail) =>
      var tag := "B" + A.Word(head);
      assert A.EncodeTags(tags) == tag + A.EncodeTags(tail);
      PrefixParts(m, i, tag, A.EncodeTags(tail));
      TagRead(m, i, head);
      TagsTaken(m, i + |tag|, tail);
      ReadQuietly(G.OneOrMore(G.FAbiTag, m, i), i + |A.EncodeTags(tags)|);
  }

  lemma IdentifierRead(m: string, i: nat, name: string, tags: A.Tags, d: Ideal)
    requires A.IsIdentifier(name) && A.ValidTags(tags) && HasPrefix(m, i, A.Word(name) + A.EncodeTags(tags))
    requires At(m, i + |A.Word(name) + A.EncodeTags(tags)|) != 'B'
    ensures IsDigit(At(m, i))
    ensures Reads(G.UnqualifiedName(m, i), i + |A.Word(name) + A.EncodeTags(tags)|, d, [A.ShownName(name)])
  {
    hide HasPrefix, Meaning, Says, A.Word, G.SourceName, G.AbiTags, G.OperatorName, G.CtorDtorName;
    PrefixParts(m, i, A.Word(name), A.EncodeTags(tags));
    SourceNameRead(m, i, name, d);
    DigitRefused(m, i);
    var middle, ps := i + |A.Word(name)|, [A.ShownName(name)];
    var y := G.OperatorName(m, i).Before(G.CtorDtorName(m, i));
    ReadSecond(y, G.SourceName(m, i), middle, d, ps);
    var z := y.Before(G.SourceName(m, i));
    TagsRead(m, middle, tags);
    ReadAndSkip(z, G.AbiTags(m, middle).Optional(), middle, middle + |A.EncodeTags(tags)|, d, ps);
  }

  lemma LocalSourceNameRead(m: string, i: nat, name: string, disc: Option<nat>, d: Ideal)
    requires A.IsIdentifier(name) && HasPrefix(m, i, "L" + (A.Word(name) + A.EncodeDisc(disc)))
    requires var c := At(m, i + |"L" + (A.Word(name) + A.EncodeDisc(disc))|);
      if disc == None then c != '_' else !IsDigit(c)
    ensures At(m, i) == 'L'
    ensures Reads(G.LocalSourceName(m, i), i + |"L" + (A.Word(name) + A.EncodeDisc(disc))|, d, [A.ShownName(name)])
  {
    hide HasPrefix, Meaning, Says, A.Word, A.EncodeDisc, G.SourceName, G.Discriminator;
    var middle, ps := i + 1 + |A.Word(name)|, [A.ShownName(name)];
    var next := middle + |A.EncodeDisc(disc)|;
    PrefixParts(m, i, "L", A.Word(name) + A.EncodeDisc(disc));
    PrefixParts(m, i + 1, A.Word(name), A.EncodeDisc(disc));
    PrefixChar(m, i, "L");
    NothingIsNone(disc);
    SourceNameRead(m, i + 1, name, d);
    var a := G.Token(m, i, 'L');
    TokenRead(m, i, 'L');
    SkipAndRead(a, G.SourceName(m, i + 1), i + 1, middle, d, ps);
    var b := a.Before(G.SourceName(m, i + 1));
    DiscRead(m, middle, disc);
    ReadAndSkip(b, G.Discriminator(m, middle).Optional(), middle, next, d, ps);
    assert G.LocalSourceName(m, i) == b.Before(G.Discriminator(m, middle).Optional());
  }

  lemma NothingIsNone(disc: Option<nat>)
    ensures disc == None ==> A.EncodeDisc(disc) == ""
  {
  }

  lemma LetterRefused(m: string, i: nat)
    requires i <= |m| && At(m, i) == 'L'
    ensures Fails(G.OperatorName(m, i)) && Fails(G.CtorDtorName(m, i)) && Fails(G.SourceName(m, i))
  {
  }

  // L, a source name, perhaps a number, and tags.
  lemma LocalRead(m: string, i: nat, name: string, disc: Option<nat>, tags: A.Tags, d: Ideal)
    requires A.IsIdentifier(name) && A.ValidTags(tags)
    requires HasPrefix(m, i, "L" + (A.Word(name) + (A.EncodeDisc(disc) + A.EncodeTags(tags))))
    requires var c := At(m, i + |"L" + (A.Word(name) + (A.EncodeDisc(disc) + A.EncodeTags(tags)))|);
      c != 'B' && (tags.NoTags? ==> if disc == None then c != '_' else !IsDigit(c))
    ensures At(m, i) == 'L'
    ensures Reads(G.UnqualifiedName(m, i), i + |"L" + (A.Word(name) + (A.EncodeDisc(disc) + A.EncodeTags(tags)))|, d,
                  [A.ShownName(name)])
  {
    hide HasPrefix, Meaning, Says, A.Word, A.EncodeDisc, G.SourceName, G.AbiTags, G.OperatorName, G.CtorDtorName,
         G.LocalSourceName;
    var word := "L" + (A.Word(name) + A.EncodeDisc(disc));
    assert "L" + (A.Word(name) + (A.EncodeDisc(disc) + A.EncodeTags(tags))) == word + A.EncodeTags(tags);
    PrefixParts(m, i, word, A.EncodeTags(tags));
    var middle, ps := i + |word|, [A.ShownName(name)];
    TagsStart(m, middle, tags);
    LocalSourceNameRead(m, i, name, disc, d);
    LetterRefused(m, i);
    var y := G.OperatorName(m, i).Before(G.CtorDtorName(m, i));
    var z := y.Before(G.SourceName(m, i));
    ReadSecond(z, G.LocalSourceName(m, i), middle, d, ps);
    var w := z.Before(G.LocalSourceName(m, i));
    TagsRead(m, middle, tags);
    ReadAndSkip(w, G.AbiTags(m, middle).Optional(), middle, middle + |A.EncodeTags(tags)|, d, ps);
    assert G.UnqualifiedName(m, i) == w.Before(G.AbiTags(m, middle).Optional());
  }

  lemma TagsStart(m: string, i: nat, tags: A.Tags)
    requires HasPrefix(m, i, A.EncodeTags(tags))
    ensures if tags.Tags? then At(m, i) == 'B' else A.EncodeTags(tags) == ""
  {
    if tags.Tags? {
      PrefixChar(m, i, A.EncodeTags(tags));
    }
  }

  // An operator, a constructor or a destructor is an unqualified name.
  lemma OperatorUnqualified(m: string, i: nat, next: nat, d: Ideal, ps: seq<string>)
    requires i <= |m| && Reads(G.OperatorName(m, i), next, d, ps)
    ensures Reads(G.UnqualifiedName(m, i), next, d, ps)
  {
    hide G.OperatorName;
  }

  lemma SpecialUnqualified(m: string, i: nat, next: nat, d: Ideal, ps: seq<string>)
    requires i <= |m| && At(m, i) in {'C', 'D'} && Reads(G.CtorDtorName(m, i), next, d, ps)
    ensures Reads(G.UnqualifiedName(m, i), next, d, ps)
  {
    hide G.CtorDtorName;
    assert Fails(G.OperatorName(m, i));
    ReadSecond(G.OperatorName(m, i), G.CtorDtorName(m, i), next, d, ps);
  }

  // ----- unscoped names ---------------------------------------------------------------------------

  lemma PlainRead(m: string, i: nat, next: nat, d: Ideal, ps: seq<string>)
    requires i <= |m| && Reads(G.UnqualifiedName(m, i), next, d, ps)
    ensures Reads(G.UnscopedName(m, i), next, d, ps) && Reads(G.UnscopedTemplateName(m, i), next, d, ps)
  {
    hide G.UnqualifiedName;
  }

  // St and a name.
  lemma InStdRead(m: string, i: nat, next: nat, d: Ideal, ps: seq<string>)
    requires HasPrefix(m, i, "St") && Reads(G.UnqualifiedName(m, i + 2), next, Says(d, ["std::"]), ps)
    ensures At(m, i) == 'S'
    ensures Reads(G.UnscopedName(m, i), next, d, ["std::"] + ps)
    ensures Reads(G.UnscopedTemplateName(m, i), next, d, ["std::"] + ps)
  {
    hide G.OperatorName, HasPrefix, Meaning, Says;
    PrefixChar(m, i, "St");
    CapitalRefused(m, i);
    hide G.UnqualifiedName;
    TokensHere(m, i, 'S', 't');
    var a := G.TwoTokens(m, i, 'S', 't').AndPut("std::");
    ReadPut(G.TwoTokens(m, i, 'S', 't'), i + 2, d, "std::");
    ReadBoth(a, G.UnqualifiedName(m, i + 2), i + 2, next, d, ["std::"], ps);
    assert G.StdName(m, i) == a.Before(G.UnqualifiedName(m, i + 2));
    ReadSecond(G.UnqualifiedName(m, i), G.StdName(m, i), next, d, ["std::"] + ps);
    assert G.UnscopedName(m, i) == G.UnqualifiedName(m, i).Before(G.StdName(m, i));
  }

  lemma CapitalRefused(m: string, i: nat)
    requires i <= |m| && At(m, i) == 'S'
    ensures Fails(G.UnqualifiedName(m, i))
  {
    CapitalParts(m, i);
    hide G.OperatorName, G.CtorDtorName, G.SourceName, G.LocalSourceName;
  }

  lemma CapitalParts(m: string, i: nat)
    requires i <= |m| && At(m, i) == 'S'
    ensures Fails(G.OperatorName(m, i)) && Fails(G.CtorDtorName(m, i)) && Fails(G.SourceName(m, i))
    ensures Fails(G.LocalSourceName(m, i))
  {
    hide Table.Entries, Find;
    assert Fails(G.CastOperator(m, i)) && Fails(G.VendorOperator(m, i)) && Fails(G.OperatorSymbol(m, i));
    assert Fails(G.Number(m, i));
  }

  lemma AbbreviationRefused(m: string, i: nat)
    requires i <= |m| && At(m, i) == 'S' && At(m, i + 1) != 't'
    ensures Fails(G.UnscopedName(m, i))
  {
    hide G.UnqualifiedName;
    CapitalRefused(m, i);
    assert Fails(G.StdName(m, i));
  }

  // The name of a template is a substitution.
  lemma TemplateSeen(m: string, i: nat, next: nat, d: Ideal, ps: seq<string>)
    requires i <= |m| && At(m, i) == 'S' && At(m, i + 1) != 't' && Reads(G.Substitution(m, i), next, d, ps)
    ensures Reads(G.UnscopedTemplateName(m, i), next, d, ps)
  {
    hide G.Substitution, G.UnscopedName;
    AbbreviationRefused(m, i);
    ReadSecond(G.UnscopedName(m, i), G.Substitution(m, i), next, d, ps);
  }

  // ----- names ---------------------------------------------------------------------------------------

  lemma NotScoped(m: string, i: nat)
    requires i <= |m| && At(m, i) !in {'N', 'Z'}
    ensures Fails(G.NestedName(m, i)) && Fails(G.LocalName(m, i))
    ensures Fails(G.NestedName(m, i).Before(G.LocalName(m, i)))
  {
    assert Fails(G.LocalEntity(m, i)) && Fails(G.LocalString(m, i));
  }

  // The name of a template and its arguments.
  lemma TemplateNameRead(m: string, i: nat, middle: nat, next: nat, d: Ideal, ps: seq<string>)
    requires i <= |m| && At(m, i) !in {'N', 'Z'} && middle <= |m|
    requires Reads(G.UnscopedTemplateName(m, i), middle, d, ps)
    requires Reads(G.TemplateArgs(m, middle), next, Says(d, ps), ["<>"])
    ensures Reads(G.Name(m, i), next, d, ps + ["<>"])
  {
    hide G.UnscopedTemplateName, G.TemplateArgs, G.NestedName, G.LocalName, G.UnscopedName, Meaning, Says;
    NotScoped(m, i);
    var a, b := G.UnscopedTemplateName(m, i), G.TemplateArgs(m, middle);
    ReadBoth(a, b, middle, next, d, ps, ["<>"]);
    assert G.TemplateName(m, i) == a.Before(b);
    var x := G.NestedName(m, i).Before(G.LocalName(m, i));
    ReadSecond(x, G.TemplateName(m, i), next, d, ps + ["<>"]);
    assert G.Name(m, i) == x.Before(G.TemplateName(m, i));
  }

  // A name without arguments.
  lemma UnscopedNameRead(m: string, i: nat, next: nat, d: Ideal, ps: seq<string>)
    requires i <= |m| && At(m, i) !in {'N', 'Z'} && next <= |m| && At(m, next) != 'I'
    requires Reads(G.UnscopedName(m, i), next, d, ps)
    ensures Reads(G.Name(m, i), next, d, ps)
  {
    hide G.TemplateArgs, G.NestedName, G.LocalName, G.UnscopedName, Meaning, Says;
    NotScoped(m, i);
    TemplateArgsRefuses(m, next);
    var x := G.NestedName(m, i).Before(G.LocalName(m, i));
    assert Fails(G.TemplateName(m, i));
    FailSecond(x, G.TemplateName(m, i));
    ReadSecond(x.Before(G.TemplateName(m, i)), G.UnscopedName(m, i), next, d, ps);
    assert G.Name(m, i) == x.Before(G.TemplateName(m, i)).Before(G.UnscopedName(m, i));
  }

  // A substitution is no name without arguments.
  lemma SubstitutionIsNoName(m: string, i: nat, next: nat)
    requires i <= |m| && At(m, i) == 'S' && At(m, i + 1) != 't'
    requires Takes(G.Substitution(m, i), next) && At(m, next) != 'I'
    ensures Fails(G.Name(m, i))
  {
    hide G.TemplateArgs, G.NestedName, G.LocalName, G.UnscopedName, G.Substitution;
    NotScoped(m, i);
    AbbreviationRefused(m, i);
    TemplateArgsRefuses(m, next);
    assert Fails(G.TemplateName(m, i));
  }

  // I, arguments and E.
  lemma TemplateArgsRead(m: string, i: nat, next: nat, d: Ideal)
    requires i < |m| && m[i] == 'I' && Takes(G.OneOrMore(G.FTemplateArg, m, i + 1), next) && At(m, next) == 'E'
    ensures Reads(G.TemplateArgs(m, i), next + 1, d, ["<>"])
  {
    hide G.OneOrMore, Meaning, Says;
    var x := G.Token(m, i, 'I').Before(G.OneOrMore(G.FTemplateArg, m, i + 1)).Before(G.Token(m, next, 'E'));
    ReadQuietly(x, next + 1);
    ReadPut(x.Quietly(), next + 1, d, "<>");
    assert G.TemplateArgs(m, i) == x.Quietly().AndPut("<>");
  }

  // ----- local names ---------------------------------------------------------------------------------

  lemma LocalNameIs(m: string, i: nat)
    requires i <= |m| && At(m, i) == 'Z'
    ensures Fails(G.NestedName(m, i))
    ensures G.LocalName(m, i).Accept? ==> G.Name(m, i) == G.NestedName(m, i).Before(G.LocalName(m, i))
  {
    hide G.LocalName, G.TemplateName, G.UnscopedName;
    assert Fails(G.NestedName(m, i));
  }

  // Z, an encoding, E, a name and perhaps a number.
  lemma EntityRead(m: string, i: nat, middle: nat, next: nat, after: nat, d: Ideal, ps: seq<string>, qs: seq<string>)
    requires i < |m| && m[i] == 'Z' && Reads(G.Encoding(m, i + 1), middle, d, ps) && At(m, middle) == 'E'
    requires Reads(G.Name(m, middle + 1), next, Says(d, ps + ["::"]), qs)
    requires next <= |m| && Skips(G.Discriminator(m, next).Optional(), after)
    ensures Reads(G.Name(m, i), after, d, ps + ["::"] + qs)
  {
    hide G.Encoding, G.Name, G.Discriminator, Meaning, Says;
    var a := G.Token(m, i, 'Z');
    TokenRead(m, i, 'Z');
    SkipAndRead(a, G.Encoding(m, i + 1), i + 1, middle, d, ps);
    var b := a.Before(G.Encoding(m, i + 1));
    TokenRead(m, middle, 'E');
    ReadAndSkip(b, G.Token(m, middle, 'E'), middle, middle + 1, d, ps);
    var c := b.Before(G.Token(m, middle, 'E'));
    ReadOneMore(c, middle + 1, d, ps, "::");
    ReadBoth(c.AndPut("::"), G.Name(m, middle + 1), middle + 1, next, d, ps + ["::"], qs);
    var e := c.AndPut("::").Before(G.Name(m, middle + 1));
    ReadAndSkip(e, G.Discriminator(m, next).Optional(), next, after, d, ps + ["::"] + qs);
    assert G.LocalEntity(m, i) == e.Before(G.Discriminator(m, next).Optional());
    LocalIsName(m, i, after, d, ps + ["::"] + qs);
  }

  lemma LocalIsName(m: string, i: nat, next: nat, d: Ideal, ps: seq<string>)
    requires i < |m| && m[i] == 'Z' && Reads(G.LocalName(m, i), next, d, ps)
    ensures Reads(G.Name(m, i), next, d, ps)
  {
    hide G.LocalName, Meaning, Says;
    LocalNameIs(m, i);
    ReadSecond(G.NestedName(m, i), G.LocalName(m, i), next, d, ps);
  }

  // Z, an encoding, Es and perhaps a number.  What follows the s does not make it a name.
  lemma LiteralNameRead(m: string, i: nat, middle: nat, after: nat, d: Ideal, ps: seq<string>)
    requires i < |m| && m[i] == 'Z' && Reads(G.Encoding(m, i + 1), middle, d, ps)
    requires middle + 1 < |m| && m[middle] == 'E' && m[middle + 1] == 's'
    requires Ending(At(m, middle + 2)) || At(m, middle + 2) == '_'
    requires Skips(G.Discriminator(m, middle + 2).Optional(), after)
    ensures Reads(G.Name(m, i), after, d, ps)
  {
    hide G.Encoding, G.Name, G.Discriminator, Meaning, Says;
    var a := G.Token(m, i, 'Z');
    TokenRead(m, i, 'Z');
    SkipAndRead(a, G.Encoding(m, i + 1), i + 1, middle, d, ps);
    var b := a.Before(G.Encoding(m, i + 1));
    TokensHere(m, middle, 'E', 's');
    ReadAndSkip(b, G.TwoTokens(m, middle, 'E', 's'), middle, middle + 2, d, ps);
    var c := b.Before(G.TwoTokens(m, middle, 'E', 's'));
    ReadAndSkip(c, G.Discriminator(m, middle + 2).Optional(), middle + 2, after, d, ps);
    assert G.LocalString(m, i) == c.Before(G.Discriminator(m, middle + 2).Optional());
    LoneLetter(m, middle + 1);
    assert Fails(G.LocalEntity(m, i));
    ReadSecond(G.LocalEntity(m, i), G.LocalString(m, i), after, d, ps);
    LocalIsName(m, i, after, d, ps);
  }

  lemma LoneLetter(m: string, i: nat)
    requires i < |m| && m[i] == 's' && (Ending(At(m, i + 1)) || At(m, i + 1) == '_')
    ensures Fails(G.Name(m, i))
  {
    hide Table.Entries;
    if At(m, i + 1) == 'E' {
      NoOperator('s', 'E');
    }
    assert Fails(G.CastOperator(m, i)) && Fails(G.VendorOperator(m, i)) && Fails(G.OperatorSymbol(m, i));
    assert Fails(G.OperatorName(m, i));
    hide G.OperatorName;
    assert Fails(G.CtorDtorName(m, i)) && Fails(G.SourceName(m, i)) && Fails(G.LocalSourceName(m, i));
    assert Fails(G.UnqualifiedName(m, i)) && Fails(G.StdName(m, i)) && Fails(G.Substitution(m, i));
    assert Fails(G.UnscopedName(m, i)) && Fails(G.UnscopedTemplateName(m, i));
    NotScoped(m, i);
  }
}
