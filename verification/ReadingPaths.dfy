// Nested names, component by component.
module ReadingPaths {
  import opened CStrings
  import opened Decimals
  import opened Options
  import opened Reading
  import opened ReadingNames
  import opened ReadingParts
  import opened Refusals
  import opened Tables
  import opened Trace
  import opened TraceTheorems
  import A = Abi
  import G = Grammar

  // The parse succeeds at next and, with append on, prints these pieces, at whatever nesting
  // level that leaves.
  ghost predicate Goes(p: G.Parse, next: nat, d: Ideal, pieces: seq<string>)
  {
    && p.Accept? && p.next == next
    && (d.append ==>
          && Meaning(p.t, d) == Says(d, pieces).(nest := Meaning(p.t, d).nest)
          && (d.nest >= 1 || pieces != [] ==> Ends(p.t, d)))
  }

  // What stands between the components.
  function Between(d: Ideal): seq<string> { if d.nest >= 1 then ["::"] else [] }

  function BehindItem(d: Ideal, item: seq<string>): Ideal
  {
    var e := Says(d, Between(d) + item);
    e.(nest := e.nest + 1)
  }

  lemma SaysBetween(d: Ideal, item: seq<string>)
    ensures Separated(d) == Says(d, Between(d)) && Says(Separated(d), item) == Says(d, Between(d) + item)
  {
    SaysBoth(d, Between(d), item);
  }

  lemma GoesBoth(d: Ideal, e: Ideal, t: Trace, first: seq<string>, second: seq<string>)
    requires e == Says(d, first).(nest := e.nest)
    requires Meaning(t, e) == Says(e, second).(nest := Meaning(t, e).nest)
    ensures Meaning(t, e) == Says(d, first + second).(nest := Meaning(t, e).nest)
  {
    hide Meaning, Says;
    SaysBoth(d, first, second);
    SaysAtLevel(Says(d, first), e.nest, second);
  }

  // ----- items ---------------------------------------------------------------------------------

  lemma ParamItemRead(m: string, i: nat, next: nat, d: Ideal, ps: seq<string>)
    requires i <= |m| && Reads(G.TemplateParam(m, i), next, d, ps)
    ensures Reads(G.PrefixItem(m, i), next, d, ps)
  {
    hide G.TemplateParam;
  }

  lemma SeenItemRead(m: string, i: nat, next: nat, d: Ideal, ps: seq<string>)
    requires i <= |m| && At(m, i) == 'S' && Reads(G.Substitution(m, i), next, d, ps)
    ensures Reads(G.PrefixItem(m, i), next, d, ps)
  {
    hide G.Substitution, G.TemplateParam;
    TemplateParamRefuses(m, i);
    ReadSecond(G.TemplateParam(m, i), G.Substitution(m, i), next, d, ps);
  }

  lemma NamedItemRead(m: string, i: nat, next: nat, d: Ideal, ps: seq<string>)
    requires i <= |m| && At(m, i) !in {'S', 'T'} && Reads(G.UnscopedName(m, i), next, d, ps)
    ensures Reads(G.PrefixItem(m, i), next, d, ps)
  {
    hide G.Substitution, G.TemplateParam, G.UnscopedName;
    TemplateParamRefuses(m, i);
    SubstitutionRefuses(m, i);
    var y := G.TemplateParam(m, i).Before(G.Substitution(m, i));
    ReadSecond(y, G.UnscopedName(m, i), next, d, ps);
  }

  // ----- prefixes --------------------------------------------------------------------------------

  // The loop ends at an E.
  lemma PathEnds(m: string, i: nat, has: bool, d: Ideal)
    requires i < |m| && m[i] == 'E'
    ensures Goes(G.Prefix(m, i, has), i, d, [])
  {
    hide G.PrefixItem, G.TemplateArgs, Says;
    PrefixItemRefuses(m, i);
    TemplateArgsRefuses(m, i);
    var y := G.Accept(i, Retract(G.PrefixItem(m, i).t));
    var z := y.Before(G.TemplateArgs(m, i));
    SaysNothing(d);
    SettledMeansNothing(G.TemplateArgs(m, i).t, d);
    assert Meaning(y.t, d) == d;
    SilenceFirst(y.t, G.TemplateArgs(m, i).t, d);
    if has {
      assert G.Prefix(m, i, has) == z.Optional();
      assert z.t == Then(y.t, G.TemplateArgs(m, i).t) && Meaning(z.t, d) == d;
      assert d.append && d.nest >= 1 ==> Ends(y.t, d) && Ends(z.t, d);
    }
  }

  // One more component.
  lemma ItemFirst(m: string, i: nat, has: bool, middle: nat, next: nat, d: Ideal, ps: seq<string>, qs: seq<string>)
    requires i <= |m| && middle <= |m| && d.nest >= 0 && Reads(G.PrefixItem(m, i), middle, Separated(d), ps)
    requires Goes(G.Prefix(m, middle, true), next, BehindItem(d, ps), qs)
    ensures Goes(G.Prefix(m, i, has), next, d, Between(d) + ps + qs)
  {
    hide G.PrefixItem, Says;
    var x, y := G.PrefixItem(m, i), G.Prefix(m, middle, true);
    SaysBetween(d, ps);
    SaysKeeps(d, Between(d) + ps);
    assert G.Prefix(m, i, has) == G.Accept(middle, Then(Separate, Then(x.t, Deeper))).Before(y);
    if d.append {
      ItemPrints(x.t, y.t, d, ps);
      GoesBoth(d, BehindItem(d, ps), y.t, Between(d) + ps, qs);
    }
  }

  lemma ItemPrints(item: Trace, rest: Trace, d: Ideal, ps: seq<string>)
    requires d.append && d.nest >= 0 && Meaning(item, Separated(d)) == Says(d, Between(d) + ps)
    ensures Meaning(Then(Then(Separate, Then(item, Deeper)), rest), d) == Meaning(rest, BehindItem(d, ps))
    ensures Ends(rest, BehindItem(d, ps)) ==> Ends(Then(Then(Separate, Then(item, Deeper)), rest), d)
  {
    hide Says;
    SaysKeeps(d, Between(d) + ps);
    var u := Then(Separate, Then(item, Deeper));
    assert Meaning(Then(item, Deeper), Separated(d)) == Meaning(Deeper, Meaning(item, Separated(d)));
    assert Meaning(u, d) == Meaning(Then(item, Deeper), Meaning(Separate, d));
    assert Meaning(u, d) == BehindItem(d, ps);
  }

  // The arguments of the component before.
  lemma ArgsFirst(m: string, i: nat, middle: nat, next: nat, d: Ideal, qs: seq<string>)
    requires i < |m| && m[i] == 'I' && middle <= |m| && d.nest >= 1 && Reads(G.TemplateArgs(m, i), middle, d, ["<>"])
    requires Goes(G.Prefix(m, middle, false), next, Says(d, ["<>"]), qs)
    ensures Goes(G.Prefix(m, i, true), next, d, ["<>"] + qs)
  {
    hide G.PrefixItem, G.TemplateArgs, Says;
    PrefixItemRefuses(m, i);
    var y := G.Accept(i, Retract(G.PrefixItem(m, i).t));
    var z := y.Before(G.TemplateArgs(m, i));
    var w := G.Prefix(m, middle, false);
    assert G.Prefix(m, i, true) == z.Before(w);
    if d.append {
      assert Meaning(y.t, d) == d;
      SilenceFirst(y.t, G.TemplateArgs(m, i).t, d);
      assert Meaning(z.t, d) == Says(d, ["<>"]);
      SaysKeeps(d, ["<>"]);
      GoesBoth(d, Says(d, ["<>"]), w.t, ["<>"], qs);
    }
  }

  // N, qualifiers, components and E.
  lemma NestedNameRead(m: string, i: nat, j: nat, next: nat, d: Ideal, ps: seq<string>)
    requires i < |m| && m[i] == 'N' && next < |m| && m[next] == 'E' && j <= |m|
    requires G.CVQualifiers(m, i + 1).next == j && (j != i + 1 ==> G.CVQualifiers(m, i + 1).Accept?)
    requires Goes(G.Prefix(m, j, false), next, d.(nest := 0), ps) && ps != []
    ensures Reads(G.Name(m, i), next + 1, d, ps)
  {
    hide G.Prefix, Says, G.LocalName, G.TemplateName, G.UnscopedName;
    var a := G.Token(m, i, 'N');
    TokenRead(m, i, 'N');
    var q, x := G.CVQualifiers(m, i + 1).Optional(), G.Prefix(m, j, false);
    var y := q.Before(x);
    SaysAtLevel(d, 0, ps);
    SaysKeeps(d, ps);
    SilenceFirst(q.t, x.t, d.(nest := 0));
    assert Reads(y.AtLevelZero(), next, d, ps);
    SkipAndRead(a, y.AtLevelZero(), i + 1, next, d, ps);
    var b := a.Before(y.AtLevelZero());
    TokenRead(m, next, 'E');
    ReadAndSkip(b, G.Token(m, next, 'E'), next, next + 1, d, ps);
    assert G.NestedName(m, i) == b.Before(G.Token(m, next, 'E'));
  }
}
