// Source names of negative length lead the cursor backwards.  Where the loops of the
// demangler then stay for ever.
module EndlessRuns {
  import opened CStrings
  import opened Decimals
  import opened DemanglerTheorems
  import opened Options
  import D = Demangler
  import G = Grammar
  import R = Refusals

  // ----- names and tags, forwards and backwards ---------------------------------------------

  // Where the source name at i ends, behind its number or in front of it: the digits after
  // an optional n lead from their end, by their value or back by it.  -1 is refused, and so
  // is what lies behind the end of the input.
  function NameEnd(m: string, i: nat): Option<int>
  {
    if i > |m| then None
    else
      var k := G.NumberStart(m, i);
      var j := RunEnd(m, k, IsDigit);
      var value: int := ValueAt(m, k, j);
      var end := if k > i then j - value else j + value;
      if j == k || (k > i && value == 1) || end > |m| then None else Some(end)
  }

  // That is what the grammar does, as far as it follows.
  lemma NameEndIs(m: string, i: nat)
    requires i <= |m|
    ensures match G.SourceName(m, i)
            case Accept(next, _) => NameEnd(m, i) == Some(next)
            case Reject(_, _) => NameEnd(m, i) == None
            case StepsBack(c) => NameEnd(m, i) == Some(c) && c <= i && At(m, i) == 'n' && IsDigit(At(m, i + 1))
  {
  }

  // B and a source name.
  function TagEnd(m: string, c: int): Option<int>
  {
    if 0 <= c < |m| && m[c] == 'B' then NameEnd(m, c + 1) else None
  }

  // Where k tags, each read where the one before it ends, lead from c.
  function Tags(m: string, c: int, k: nat): Option<int>
    decreases k
  {
    if k == 0 then Some(c)
    else
      match TagEnd(m, c)
      case Some(e) => Tags(m, e, k - 1)
      case None => None
  }

  // Where an optional list of exactly k tags, begun at c, leaves the cursor; behind a B that
  // starts no further tag.
  function BehindTags(m: string, c: int, k: nat): Option<int>
  {
    match Tags(m, c, k)
    case Some(e) =>
      if e < 0 || TagEnd(m, e).Some? then None
      else if k > 0 && At(m, e) == 'B' then Some(e + 1)
      else Some(e)
    case None => None
  }

  // A list ends in one way only.
  lemma {:induction false} OneList(m: string, c: int, k: nat, l: nat)
    requires k < l && BehindTags(m, c, k).Some?
    ensures Tags(m, c, l) == None
    decreases k
  {
    if k > 0 {
      OneShorter(m, c, k);
      OneList(m, TagEnd(m, c).value, k - 1, l - 1);
    }
  }

  lemma OneShorter(m: string, c: int, k: nat)
    requires k > 0 && Tags(m, c, k).Some? && TagEnd(m, Tags(m, c, k).value) == None && Tags(m, c, k).value >= 0
    ensures TagEnd(m, c).Some? && BehindTags(m, TagEnd(m, c).value, k - 1).Some?
  {
  }

  lemma TagEndIs(m: string, i: nat)
    requires i <= |m|
    ensures match G.AbiTag(m, i)
            case Accept(next, _) => TagEnd(m, i) == Some(next)
            case Reject(next, _) => TagEnd(m, i) == None && next == if At(m, i) == 'B' then i + 1 else i
            case StepsBack(c) => TagEnd(m, i) == Some(c)
  {
    if At(m, i) == 'B' {
      NameEndIs(m, i + 1);
    }
  }

  // The loop over tags, as far as the grammar follows it: k tags stand one behind another,
  // and it ends where the last of them ends, or behind a B that stands there.
  lemma {:induction false} TagsStand(m: string, i: nat) returns (j: nat, k: nat)
    requires i <= |m| && G.ZeroOrMore(G.FAbiTag, m, i).Accept?
    ensures i <= j <= |m| && Tags(m, i, k) == Some(j) && TagEnd(m, j) == None
    ensures G.ZeroOrMore(G.FAbiTag, m, i).next == if At(m, j) == 'B' then j + 1 else j
    decreases |m| - i
  {
    TagEndIs(m, i);
    j, k := i, 0;
    if G.AbiTag(m, i).Accept? {
      j, k := TagsStand(m, G.AbiTag(m, i).next);
      k := k + 1;
    }
  }

  lemma TagsAre(m: string, i: nat) returns (k: nat)
    requires i <= |m| && !G.AbiTags(m, i).StepsBack?
    ensures BehindTags(m, i, k) == Some(G.AbiTags(m, i).Optional().next)
  {
    hide NameEnd, TagEnd, G.AbiTag;
    TagEndIs(m, i);
    k := 0;
    var x := G.AbiTag(m, i);
    assert G.Call(G.FAbiTag, m, i) == x;
    assert !x.StepsBack? && G.AbiTags(m, i).Accept? == G.OneOrMore(G.FAbiTag, m, i).Accept? == x.Accept?;
    if x.Accept? {
      assert G.AbiTags(m, i).next == G.ZeroOrMore(G.FAbiTag, m, x.next).next;
      var j;
      j, k := TagsStand(m, G.AbiTag(m, i).next);
      k := k + 1;
    }
  }

  // ----- one turn of the loop over a prefix ---------------------------------------------------

  predicate VendorAt(m: string, i: nat) { At(m, i) == 'v' && IsDigit(At(m, i + 1)) }

  // Where an operator name leads.  Names inside the type of a cast are not followed backwards.
  function OperatorEnd(m: string, i: nat): Option<int>
    requires i <= |m|
  {
    if G.CastOperator(m, i).Accept? then Some(G.CastOperator(m, i).next)
    else if VendorAt(m, i) then NameEnd(m, i + 2)
    else if G.OperatorSymbol(m, i).Accept? then Some(G.OperatorSymbol(m, i).next)
    else None
  }

  // A local source name: L, a source name and an optional discriminator.
  function LocalNameEnd(m: string, i: nat): Option<int>
  {
    if At(m, i) != 'L' then None
    else
      match NameEnd(m, i + 1)
      case Some(c) => Some(if 0 <= c <= |m| then G.Discriminator(m, c).Optional().next else c)
      case None => None
  }

  // Where a source name or a local one leads with k tags.
  function BehindName(m: string, i: nat, k: nat): Option<int>
  {
    if NameEnd(m, i).Some? then BehindTags(m, NameEnd(m, i).value, k)
    else if LocalNameEnd(m, i).Some? then BehindTags(m, LocalNameEnd(m, i).value, k)
    else None
  }

  // Where an unqualified name with k tags leads; behind operators, constructors and
  // destructors no tags are read.
  function NameTurn(m: string, i: nat, k: nat): Option<int>
    requires i <= |m|
  {
    if OperatorEnd(m, i).Some? then if k == 0 then OperatorEnd(m, i) else None
    else if G.CtorDtorName(m, i).Accept? then if k == 0 then Some(G.CtorDtorName(m, i).next) else None
    else BehindName(m, i, k)
  }

  // Where a turn begun at i leaves the cursor when it reads k tags.
  function Turn(m: string, i: nat, k: nat): Option<int>
  {
    if i > |m| || G.CastOperator(m, i).StepsBack? then None
    else if G.TemplateParam(m, i).Accept? then if k == 0 then Some(G.TemplateParam(m, i).next) else None
    else if G.Substitution(m, i).Accept? then if k == 0 then Some(G.Substitution(m, i).next) else None
    else NameTurn(m, i, k)
  }

  // At a digit, an n and a digit, an L, or a v and a digit the items tried before are refused.
  lemma NothingElse(m: string, i: nat)
    requires i <= |m|
    requires IsDigit(At(m, i)) || (At(m, i) == 'n' && IsDigit(At(m, i + 1))) || At(m, i) == 'L' || VendorAt(m, i)
    ensures G.TemplateParam(m, i).Reject? && G.Substitution(m, i).Reject? && G.CastOperator(m, i).Reject?
    ensures G.OperatorSymbol(m, i).Reject? && G.CtorDtorName(m, i).Reject?
  {
    hide Find, G.Type, G.Number;
  }

  // ----- where the grammar follows -----

  lemma DigitClass(c: char)
    ensures c in "0123456789" <==> IsDigit(c)
  {
    var digits := "0123456789";
    if IsDigit(c) {
      assert digits[c as int - '0' as int] == c;
    }
  }

  lemma VendorIs(m: string, i: nat)
    requires i <= |m|
    ensures match G.VendorOperator(m, i)
            case Accept(next, _) => VendorAt(m, i) && NameEnd(m, i + 2) == Some(next)
            case Reject(_, _) => VendorAt(m, i) ==> NameEnd(m, i + 2) == None
            case StepsBack(c) => VendorAt(m, i) && NameEnd(m, i + 2) == Some(c)
  {
    DigitClass(At(m, i + 1));
    if VendorAt(m, i) {
      NameEndIs(m, i + 2);
    }
  }

  lemma OperatorsAreLonger(m: string, i: nat)
    requires i <= |m| && !Remaining(m, i, 2)
    ensures OperatorEnd(m, i) == None
  {
  }

  lemma OperatorIs(m: string, i: nat)
    requires i <= |m| && !G.OperatorName(m, i).StepsBack?
    ensures OperatorEnd(m, i) == if G.OperatorName(m, i).Accept? then Some(G.OperatorName(m, i).next) else None
  {
    hide NameEnd, G.CastOperator, G.VendorOperator;
    VendorIs(m, i);
    if !Remaining(m, i, 2) {
      OperatorsAreLonger(m, i);
    } else if VendorAt(m, i) {
      assert G.CastOperator(m, i).Reject? && G.OperatorSymbol(m, i).Reject? by {
        NothingElse(m, i);
      }
    }
  }

  lemma LocalNameIs(m: string, i: nat)
    requires i <= |m|
    ensures match G.LocalSourceName(m, i)
            case Accept(next, _) => LocalNameEnd(m, i) == Some(next)
            case Reject(_, _) => LocalNameEnd(m, i) == None
            case StepsBack(c) =>
              if c < 0 then LocalNameEnd(m, i) == Some(c)
              else c <= |m| && LocalNameEnd(m, i) == Some(G.Discriminator(m, c).Optional().next)
  {
    hide NameEnd, G.SourceName, G.Discriminator;
    if At(m, i) == 'L' {
      NameEndIs(m, i + 1);
    }
  }

  lemma NameTurnIs(m: string, i: nat) returns (k: nat)
    requires i <= |m| && !G.UnqualifiedName(m, i).StepsBack?
    ensures var x := G.UnqualifiedName(m, i);
            if x.Accept? then NameTurn(m, i, k) == Some(x.next) else forall l :: NameTurn(m, i, l) == None
  {
    k := 0;
    OperatorIs(m, i);
    NameEndIs(m, i);
    LocalNameIs(m, i);
    if G.OperatorName(m, i).Reject? && G.CtorDtorName(m, i).Reject? {
      var y, z := G.SourceName(m, i), G.LocalSourceName(m, i);
      if y.Accept? {
        k := TagsAre(m, y.next);
      } else if z.Accept? {
        k := TagsAre(m, z.next);
      }
    }
  }

  // St is a substitution already.
  lemma NoStdName(m: string, i: nat)
    requires i <= |m| && G.Substitution(m, i).Reject?
    ensures G.StdName(m, i).Reject?
  {
    if At(m, i) == 'S' && At(m, i + 1) == 't' {
      assert Spells(Substitutions.Entries()[0], 1, 't');
    }
  }

  // Turns are those of the grammar as long as no name leads back.
  lemma TurnIsPrefixItem(m: string, i: nat) returns (k: nat)
    requires i <= |m| && !G.PrefixItem(m, i).StepsBack?
    ensures var x := G.PrefixItem(m, i);
            if x.Accept? then Turn(m, i, k) == Some(x.next) else forall l :: Turn(m, i, l) == None
  {
    k := 0;
    if G.TemplateParam(m, i).Reject? && G.Substitution(m, i).Reject? {
      NoStdName(m, i);
      k := NameTurnIs(m, i);
      assert !G.CastOperator(m, i).StepsBack?;
    } else {
      assert At(m, i) == 'T' || At(m, i) == 'S';
      assert G.CastOperator(m, i).Reject?;
    }
  }

  // ----- turns that return to their start -------------------------------------------------------

  // Do tags, each read where the one before it ends, lead from c to e?
  ghost predicate TagsLead(m: string, c: int, e: int)
  {
    exists k: nat :: Tags(m, c, k) == Some(e)
  }

  // By their characters: v, a digit and a name that ends at i; or a name that begins at i and
  // whose end leads to i, by tags if need be; or L and such a name, where the tags may also
  // end at a B right before i.
  ghost predicate Returns(m: string, i: nat)
  {
    || (VendorAt(m, i) && NameEnd(m, i + 2) == Some(i as int))
    || (NameEnd(m, i).Some? && TagsLead(m, NameEnd(m, i).value, i))
    || (LocalNameEnd(m, i).Some?
        && var c := LocalNameEnd(m, i).value;
           TagsLead(m, c, i) || (i > 0 && m[i - 1] == 'B' && c != i - 1 && TagsLead(m, c, i - 1)))
  }

  lemma NameStart(m: string, i: nat)
    requires i <= |m| && NameEnd(m, i).Some?
    ensures IsDigit(At(m, i)) || (At(m, i) == 'n' && IsDigit(At(m, i + 1)))
  {
  }

  // A list of tags behind a name ends at i exactly if tags lead there.
  lemma ListEndsAt(m: string, c: int, i: nat)
    requires i < |m| && m[i] != 'B'
    ensures (exists k: nat :: BehindTags(m, c, k) == Some(i as int)) <==>
              || TagsLead(m, c, i)
              || (i > 0 && m[i - 1] == 'B' && c != i - 1 && TagEnd(m, i - 1) == None && TagsLead(m, c, i - 1))
  {
    if k: nat :| BehindTags(m, c, k) == Some(i as int) {
      assert Tags(m, c, k) == Some(i as int) || (Tags(m, c, k) == Some(i - 1) && k > 0 && At(m, i - 1) == 'B');
    }
    if k: nat :| Tags(m, c, k) == Some(i as int) {
      assert BehindTags(m, c, k) == Some(i as int);
    }
    if i > 0 && m[i - 1] == 'B' && c != i - 1 && TagEnd(m, i - 1) == None && TagsLead(m, c, i - 1) {
      var k: nat :| Tags(m, c, k) == Some(i - 1);
      assert BehindTags(m, c, k) == Some(i as int);
    }
  }

  // Apart from the types of casts, a turn returns to its start exactly for these characters.
  lemma TurnReturns(m: string, i: nat)
    requires i <= |m|
    ensures (exists k: nat :: Turn(m, i, k) == Some(i as int)) <==> Returns(m, i)
  {
    if Returns(m, i) {
      ReturnsTurn(m, i);
    }
    if k: nat :| Turn(m, i, k) == Some(i as int) {
      TurnIsBack(m, i, k);
    }
  }

  lemma ReturnsTurn(m: string, i: nat)
    requires i <= |m| && Returns(m, i)
    ensures exists k: nat :: Turn(m, i, k) == Some(i as int)
  {
    if VendorAt(m, i) && NameEnd(m, i + 2) == Some(i as int) {
      NothingElse(m, i);
      assert Turn(m, i, 0) == Some(i as int);
    } else if NameEnd(m, i).Some? && TagsLead(m, NameEnd(m, i).value, i) {
      NameStart(m, i);
      NothingElse(m, i);
      ListEndsAt(m, NameEnd(m, i).value, i);
      var k: nat :| BehindTags(m, NameEnd(m, i).value, k) == Some(i as int);
      assert Turn(m, i, k) == Some(i as int);
    } else {
      NothingElse(m, i);
      assert NameEnd(m, i) == None;
      ListEndsAt(m, LocalNameEnd(m, i).value, i);
      var k: nat :| BehindTags(m, LocalNameEnd(m, i).value, k) == Some(i as int);
      assert Turn(m, i, k) == Some(i as int);
    }
  }

  lemma TurnIsBack(m: string, i: nat, k: nat)
    requires i <= |m| && Turn(m, i, k) == Some(i as int)
    ensures Returns(m, i)
  {
    hide NameEnd, BehindTags, G.TemplateParam, G.Substitution, G.CastOperator, G.OperatorSymbol, G.CtorDtorName;
    if OperatorEnd(m, i) == None && NameEnd(m, i).Some? {
      NameStart(m, i);
      ListEndsAt(m, NameEnd(m, i).value, i);
    } else if OperatorEnd(m, i) == None {
      ListEndsAt(m, LocalNameEnd(m, i).value, i);
    }
  }

  // A turn ends in one way only.
  lemma OneTurn(m: string, i: nat, k: nat, l: nat)
    requires Turn(m, i, k).Some? && Turn(m, i, l).Some?
    ensures k == l
  {
    hide NameEnd, LocalNameEnd, OperatorEnd, BehindTags, G.TemplateParam, G.Substitution, G.CtorDtorName;
    if G.TemplateParam(m, i).Reject? && G.Substitution(m, i).Reject? && OperatorEnd(m, i) == None
       && G.CtorDtorName(m, i).Reject? {
      SameList(m, if NameEnd(m, i).Some? then NameEnd(m, i).value else LocalNameEnd(m, i).value, k, l);
    }
  }

  lemma SameList(m: string, c: int, k: nat, l: nat)
    requires BehindTags(m, c, k).Some? && BehindTags(m, c, l).Some?
    ensures k == l
  {
    if k < l {
      OneList(m, c, k, l);
    } else if l < k {
      OneList(m, c, l, k);
    }
  }

  function TurnIn(m: string, t: nat): nat -> Option<int>
  {
    (i: nat) => Turn(m, i, t)
  }

  // Where k rounds of a loop leave the cursor.
  function Rounds(round: nat -> Option<int>, i: nat, k: nat): Option<int>
  {
    if k == 0 then Some(i)
    else
      match Rounds(round, i, k - 1)
      case Some(c) => if c >= 0 then round(c) else None
      case None => None
  }

  // One round back to its start is one for ever.
  lemma {:induction false} RoundForEver(round: nat -> Option<int>, i: nat, k: nat)
    requires round(i) == Some(i as int)
    ensures Rounds(round, i, k) == Some(i as int)
  {
    if k > 0 {
      RoundForEver(round, i, k - 1);
    }
  }

  lemma PrefixItemStepsBack(m: string, i: nat, t: nat)
    requires i <= |m| && Turn(m, i, t) == Some(i as int)
    ensures G.PrefixItem(m, i).StepsBack?
  {
    if !G.PrefixItem(m, i).StepsBack? {
      var k := TurnIsPrefixItem(m, i);
      assert G.PrefixItem(m, i).Accept?;
      OneTurn(m, i, k, t);
    }
  }

  // A name leads back to a place that is not behind its start exactly if an n and digits
  // stand there and their value leads from behind them to that place.
  lemma NameLeadsBack(m: string, i: nat, at: int)
    requires at <= i <= |m|
    ensures NameEnd(m, i) == Some(at) <==>
              && At(m, i) == 'n' && IsDigit(At(m, i + 1))
              && RunEnd(m, i + 1, IsDigit) - ValueAt(m, i + 1, RunEnd(m, i + 1, IsDigit)) == at
  {
  }

  lemma OneDigitBack(m: string, i: nat, digit: nat)
    requires i + 1 < |m| && m[i] == 'n' && IsDigit(m[i + 1]) && !IsDigit(At(m, i + 2))
    requires digit == m[i + 1] as int - '0' as int >= 2
    ensures NameEnd(m, i) == Some(i + 2 - digit)
  {
    RunEndIs(m, i + 1, i + 2, IsDigit);
    assert ValueAt(m, i + 1, i + 2) == digit;
    NameLeadsBack(m, i, i + 2 - digit);
  }

  lemma NameReturns(m: string, i: nat)
    requires NameEnd(m, i) == Some(i as int) || (At(m, i) == 'L' && i < |m| && NameEnd(m, i + 1) == Some(i as int))
    ensures Returns(m, i)
  {
    assert Tags(m, i, 0) == Some(i as int);
  }

  lemma TaggedNameReturns(m: string, i: nat)
    requires i + 3 < |m| && m[i] == '1' && !IsDigit(m[i + 1]) && m[i + 2] == 'B' && NameEnd(m, i + 3) == Some(i as int)
    ensures Returns(m, i)
  {
    RunEndIs(m, i, i + 1, IsDigit);
    assert ValueAt(m, i, i + 1) == 1;
    assert Tags(m, i, 0) == Some(i as int) && Tags(m, i + 2, 1) == Some(i as int);
  }

  lemma ItemAt(m: string, i: nat, item: string)
    requires i + |item| <= |m| && m[i..i + |item|] == item
    ensures forall k {:trigger item[k]} :: 0 <= k < |item| ==> m[i + k] == item[k]
  {
  }

  // One turn of each kind, at its shortest: a name, a name with a tag, a local name and a
  // vendor's operator.
  lemma ShortestTurns(m: string, i: nat, item: string)
    requires item in {"n2", "1aBn5", "Ln3", "v0n4"}
    requires i + |item| <= |m| && m[i..i + |item|] == item && !IsDigit(At(m, i + |item|))
    ensures Returns(m, i)
  {
    hide NameEnd;
    ItemAt(m, i, item);
    assert m[i] == item[0] && m[i + 1] == item[1];
    var n := |item| - 2;
    assert m[i + n] == item[n] == 'n' && m[i + n + 1] == item[n + 1];
    OneDigitBack(m, i + n, item[n + 1] as int - '0' as int);
    if item == "1aBn5" {
      assert m[i + 2] == item[2];
      TaggedNameReturns(m, i);
    } else if item != "v0n4" {
      NameReturns(m, i);
    }
  }

  // A mangled name whose nested name starts with such a turn never comes to an end: the loop
  // over the prefix is entered at position 3, and every turn leaves the cursor there.
  lemma NeverEnds(m: string, k: nat) returns (t: nat)
    requires "_ZN" <= m && Returns(m, 3)
    ensures G.TopLevelMangledName(m).StepsBack? && Rounds(TurnIn(m, t), 3, k) == Some(3)
  {
    assert m[0] == '_' && m[1] == 'Z' && m[2] == 'N';
    TurnReturns(m, 3);
    t :| Turn(m, 3, t) == Some(3);
    PrefixItemStepsBack(m, 3, t);
    RoundForEver(TurnIn(m, t), 3, k);
    FirstOfTurn(m, 3);
    NestedNameStepsBack(m, 2);
  }

  // It starts with none of the letters of the qualifiers.
  lemma FirstOfTurn(m: string, i: nat)
    requires i <= |m| && Returns(m, i)
    ensures At(m, i) !in {'r', 'V', 'K'}
  {
    if NameEnd(m, i).Some? {
      NameStart(m, i);
    }
  }

  lemma NestedNameStepsBack(m: string, i: nat)
    requires i == 2 && |m| >= 3 && m[0] == '_' && m[1] == 'Z' && m[2] == 'N'
    requires At(m, 3) !in {'r', 'V', 'K'} && G.PrefixItem(m, 3).StepsBack?
    ensures G.TopLevelMangledName(m).StepsBack?
  {
    hide G.PrefixItem;
    assert G.CVQualifiers(m, 3).Reject?;
    assert G.Prefix(m, 3, false).StepsBack?;
    assert G.NestedName(m, i).StepsBack?;
    assert G.Name(m, i).StepsBack?;
    assert G.FunctionEncoding(m, i).StepsBack?;
    assert G.Encoding(m, i).StepsBack?;
    assert G.MangledName(m, 0).StepsBack?;
  }

  // ----- the parsing methods, followed backwards ------------------------------------------------

  // Nothing is read in front of the string.
  lemma Inside(m: string, c: int, k: nat)
    requires Tags(m, c, k).Some? && Tags(m, c, k).value >= 0
    ensures c >= 0
  {
  }

  // Within a list: k more tags lead to where it leaves the cursor.
  predicate Ahead(m: string, c: int, k: nat, end: Option<int>)
  {
    match Tags(m, c, k)
    case Some(e) => e >= 0 && TagEnd(m, e) == None && end == Some(if At(m, e) == 'B' then e + 1 else e)
    case None => false
  }

  lemma NextTag(m: string, c: int, k: nat)
    requires BehindTags(m, c, k).Some?
    ensures c >= 0 && (k > 0 <==> TagEnd(m, c).Some?)
    ensures k > 0 ==> TagEnd(m, c).value >= 0 && Ahead(m, TagEnd(m, c).value, k - 1, BehindTags(m, c, k))
    ensures k == 0 ==> BehindTags(m, c, k) == Some(c)
  {
    Inside(m, c, k);
    if k > 0 {
      Inside(m, TagEnd(m, c).value, k - 1);
    }
  }

  lemma NextTagAhead(m: string, c: int, k: nat, end: Option<int>)
    requires Ahead(m, c, k, end)
    ensures c >= 0 && (k > 0 <==> TagEnd(m, c).Some?)
    ensures if k > 0 then TagEnd(m, c).value >= 0 && Ahead(m, TagEnd(m, c).value, k - 1, end)
            else end == Some(if At(m, c) == 'B' then c + 1 else c)
  {
    Inside(m, c, k);
    if k > 0 {
      Inside(m, TagEnd(m, c).value, k - 1);
    }
  }

  // The loop over the tags behind the first one.
  method MoreTags(state: D.State, ghost k: nat, ghost end: Option<int>)
    requires state.Valid() && Ahead(state.mangled, state.mangledCur, k, end)
    modifies state, state.out
    ensures state.Valid() && Some(state.mangledCur as int) == end
  {
    hide Tags, TagEnd, Ahead, G.AbiTag;
    ghost var rest := k;
    var ok := true;
    while ok
      invariant state.Valid()
      invariant if ok then Ahead(state.mangled, state.mangledCur, rest, end) else Some(state.mangledCur as int) == end
      decreases rest, ok
    {
      NextTagAhead(state.mangled, state.mangledCur, rest, end);
      TagEndIs(state.mangled, state.mangledCur);
      ok := state.ParseAbiTag();
      if ok {
        rest := rest - 1;
      }
    }
  }

  // ParseAbiTags, made optional.
  method TakeTags(state: D.State, ghost k: nat)
    requires state.Valid() && BehindTags(state.mangled, state.mangledCur, k).Some?
    modifies state, state.out
    ensures state.Valid() && Some(state.mangledCur as int) == old(BehindTags(state.mangled, state.mangledCur, k))
  {
    var copy := state.Save();
    ghost var o0 := state.o;
    ghost var end := BehindTags(state.mangled, state.mangledCur, k);
    hide Tags, TagEnd, BehindTags, Ahead, G.AbiTag;
    state.DisableAppend();
    NextTag(state.mangled, state.mangledCur, k);
    TagEndIs(state.mangled, state.mangledCur);
    var ok := state.ParseAbiTag();
    if !ok {
      state.Restore(copy, o0);
      return;
    }
    MoreTags(state, k - 1, end);
    state.RestoreAppend(copy.append);
  }

  // A source name or a local one, with a list of k tags behind it.
  method TakeName(state: D.State, ghost k: nat) returns (ok: bool)
    requires state.Valid()
    requires BehindName(state.mangled, state.mangledCur, k).Some?
    modifies state, state.out
    ensures ok && state.Valid()
    ensures BehindTags(state.mangled, state.mangledCur, k) == old(BehindName(state.mangled, state.mangledCur, k))
  {
    hide BehindTags, NameEnd, LocalNameEnd, G.SourceName, G.LocalSourceName;
    var m, i := state.mangled, state.mangledCur;
    NameEndIs(m, i);
    LocalNameIs(m, i);
    if NameEnd(m, i).Some? {
      NextTag(m, NameEnd(m, i).value, k);
    } else {
      NextTag(m, LocalNameEnd(m, i).value, k);
    }
    ok := state.ParseSourceName();
    if !ok {
      ok := state.ParseLocalSourceName();
    }
  }

  // One turn of the loop over a prefix.
  method TakeTurn(state: D.State, ghost k: nat) returns (ok: bool)
    requires state.Valid() && Turn(state.mangled, state.mangledCur, k).Some?
    requires Turn(state.mangled, state.mangledCur, k).value >= 0
    modifies state, state.out
    ensures ok && state.Valid() && Some(state.mangledCur as int) == old(Turn(state.mangled, state.mangledCur, k))
  {
    hide NameEnd, LocalNameEnd, OperatorEnd, BehindTags;
    hide G.TemplateParam, G.Substitution, G.CtorDtorName, G.SourceName, G.LocalSourceName;
    ok := state.ParseTemplateParam();
    if ok { return; }
    ok := state.ParseSubstitution();
    if ok { return; }
    ok := TakeOperator(state);
    if ok { return; }
    ok := state.ParseCtorDtorName();
    if ok { return; }
    ok := TakeName(state, k);
    TakeTags(state, k);
  }

  // ParseOperatorName
  method TakeOperator(state: D.State) returns (ok: bool)
    requires state.Valid() && !G.CastOperator(state.mangled, state.mangledCur).StepsBack?
    requires OperatorEnd(state.mangled, state.mangledCur).Some? ==>
               OperatorEnd(state.mangled, state.mangledCur).value >= 0
    modifies state, state.out
    ensures state.Valid() && ok == old(OperatorEnd(state.mangled, state.mangledCur)).Some?
    ensures if ok then Some(state.mangledCur as int) == old(OperatorEnd(state.mangled, state.mangledCur))
            else state.mangledCur == old(state.mangledCur)
  {
    hide NameEnd, G.CastOperator, G.VendorOperator;
    ok := state.AtLeastNumCharsRemaining(2);
    if !ok {
      OperatorsAreLonger(state.mangled, state.mangledCur);
      return;
    }
    ok := state.ParseCastOperator();
    if ok { return; }
    VendorIs(state.mangled, state.mangledCur);
    ok := state.ParseVendorOperator();
    if ok { return; }
    ok := state.ParseOperatorSymbol();
  }

  // Such a turn taken k times.
  method TurnTheLoop(state: D.State, k: nat, ghost t: nat)
    requires state.Valid() && Turn(state.mangled, state.mangledCur, t) == Some(state.mangledCur as int)
    modifies state, state.out
    ensures state.Valid() && state.mangledCur == old(state.mangledCur)
  {
    for n := 0 to k
      invariant state.Valid() && state.mangledCur == old(state.mangledCur)
    {
      state.MaybeAppendSeparator();
      var ok := TakeTurn(state, t);
      assert ok;
      state.MaybeIncreaseNestLevel();
    }
  }

  // ----- the loops over types, tags and template arguments --------------------------------------

  // A u and a name are a type; all other types are refused there.
  lemma VendorTypeIs(m: string, i: nat)
    requires i < |m| && m[i] == 'u' && !G.SourceName(m, i + 1).Reject?
    ensures var x := G.SourceName(m, i + 1);
            if x.StepsBack? then G.BuiltinType(m, i) == G.Type(m, i) == G.TemplateArg(m, i) == x
            else G.BuiltinType(m, i).Accept? && G.Type(m, i).Accept? && G.TemplateArg(m, i).Accept?
  {
    hide G.SourceName;
    if R.IsBuiltin(m[i]) {
      R.BuiltinIsLower(m[i]);
    }
    R.QualifiersRefuse(m, i);
    assert R.Refuses(G.MarkedType(m, i), i);
    assert G.SourceName(m, i + 1).StepsBack? ==> G.BuiltinType(m, i) == G.SourceName(m, i + 1);
    assert R.Refuses(G.ArgumentPack(m, i), i);
  }

  // Where the name behind a B or a u leads back to that letter.
  predicate LetterReturns(m: string, i: nat)
  {
    && At(m, i + 1) == 'n' && IsDigit(At(m, i + 2))
    && RunEnd(m, i + 2, IsDigit) - ValueAt(m, i + 2, RunEnd(m, i + 2, IsDigit)) == i
  }

  // A call of the loop over ABI tags returns to its start exactly at a B and such a name; a
  // call of those over types and template arguments that finds a u and a name, exactly there.
  lemma CallReturns(f: G.ParseFunc, m: string, i: nat)
    requires i <= |m| && At(m, i) == if f.FAbiTag? then 'B' else 'u'
    requires f.FAbiTag? || !G.SourceName(m, i + 1).Reject?
    ensures G.Call(f, m, i) == G.StepsBack(i) <==> LetterReturns(m, i)
  {
    hide G.SourceName, NameEnd;
    NameEndIs(m, i + 1);
    NameLeadsBack(m, i + 1, i);
    if !f.FAbiTag? {
      VendorTypeIs(m, i);
    }
  }

  // Such a call repeated k times on the parsing methods.
  method CallTheLoop(state: D.State, f: G.ParseFunc, k: nat)
    requires state.Valid() && At(state.mangled, state.mangledCur) == if f.FAbiTag? then 'B' else 'u'
    requires LetterReturns(state.mangled, state.mangledCur)
    modifies state, state.out
    ensures state.Valid() && state.mangledCur == old(state.mangledCur)
  {
    hide LetterReturns, G.AbiTag, G.BuiltinType, G.MarkedType, G.ArgumentPack;
    for n := 0 to k
      invariant state.Valid() && state.mangledCur == old(state.mangledCur)
    {
      var ok := false;
      LetterCalls(f, state.mangled, state.mangledCur);
      if f.FAbiTag? {
        ok := state.ParseAbiTag();
      } else {
        if f.FTemplateArg? {
          ok := state.ParseArgumentPack();
        }
        ok := state.ParseMarkedType();
        ok := state.ParseBuiltinType();
      }
      assert ok;
    }
  }

  // What such a call does first, and where it then stays.
  lemma LetterCalls(f: G.ParseFunc, m: string, i: nat)
    requires i < |m| && m[i] == (if f.FAbiTag? then 'B' else 'u') && LetterReturns(m, i)
    ensures if f.FAbiTag? then G.AbiTag(m, i) == G.StepsBack(i)
            else G.ArgumentPack(m, i).Reject? && G.MarkedType(m, i).Reject? && G.BuiltinType(m, i) == G.StepsBack(i)
    ensures if f.FAbiTag? then true else G.ArgumentPack(m, i).next == G.MarkedType(m, i).next == i
    ensures G.Call(f, m, i) == G.StepsBack(i)
  {
    hide G.SourceName, NameEnd;
    NameEndIs(m, i + 1);
    NameLeadsBack(m, i + 1, i);
    if !f.FAbiTag? {
      VendorTypeIs(m, i);
      R.QualifiersRefuse(m, i);
    }
  }

  // The shortest names that stay for ever in these loops, and where.
  function Endless(f: G.ParseFunc): string
  {
    match f
    case FAbiTag => "_Z1aBn3"
    case FType => "_Z1aun3"
    case FTemplateArg => "_Z1aIun3"
  }

  lemma ThreeBack(m: string, i: nat)
    requires i + 3 <= |m| && m[i + 1] == 'n' && m[i + 2] == '3' && !IsDigit(At(m, i + 3))
    ensures LetterReturns(m, i)
  {
    RunEndIs(m, i + 2, i + 3, IsDigit);
    assert ValueAt(m, i + 2, i + 3) == 3;
  }

  lemma CallsNeverEnd(f: G.ParseFunc, m: string)
    requires Endless(f) <= m && !IsDigit(At(m, |Endless(f)|))
    ensures var at := |Endless(f)| - 3;
            LetterReturns(m, at) && G.Call(f, m, at) == G.StepsBack(at) && G.TopLevelMangledName(m) == G.StepsBack(at)
  {
    hide LetterReturns, ComesToSourceName, G.SourceName, G.Call, G.TopLevelMangledName, G.AbiTag, G.MarkedType,
         G.BuiltinType, G.ArgumentPack;
    assert m[0] == '_' && m[1] == 'Z' && m[2] == '1' && m[3] == 'a' && m[4] == Endless(f)[4];
    var at := |Endless(f)| - 3;
    assert m[at] == Endless(f)[at] && m[at + 1] == 'n' && m[at + 2] == '3';
    ThreeBack(m, at);
    LetterCalls(f, m, at);
    ShortName(m, 2);
    match f
    case FAbiTag => StaysInTags(m);
    case FType => StaysInTypes(m);
    case FTemplateArg => StaysInArguments(m);
  }

  lemma NoOtherName(m: string)
    requires |m| > 4 && m[0] == '_' && m[1] == 'Z' && m[2] == '1'
    ensures G.NestedName(m, 2).Reject? && G.LocalName(m, 2).Reject?
  {
    assert G.LocalEntity(m, 2).Reject? && G.LocalString(m, 2).Reject?;
  }

  lemma EncodingStays(m: string, c: int)
    requires |m| > 4 && m[0] == '_' && m[1] == 'Z' && G.FunctionEncoding(m, 2) == G.StepsBack(c)
    ensures G.TopLevelMangledName(m) == G.StepsBack(c)
  {
    hide G.FunctionEncoding;
    assert G.Encoding(m, 2) == G.StepsBack(c);
    assert G.MangledName(m, 0) == G.StepsBack(c);
  }

  lemma StaysInTags(m: string)
    requires |m| > 4 && m[0] == '_' && m[1] == 'Z' && m[2] == '1'
    requires ComesToSourceName(m, 2) && G.SourceName(m, 2).Accept? && G.SourceName(m, 2).next == 4
    requires G.Call(G.FAbiTag, m, 4) == G.StepsBack(4)
    ensures G.TopLevelMangledName(m) == G.StepsBack(4)
  {
    NoOtherName(m);
    assert G.AbiTags(m, 4) == G.StepsBack(4);
    assert G.UnqualifiedName(m, 2) == G.StepsBack(4);
    assert G.UnscopedTemplateName(m, 2) == G.StepsBack(4);
    assert G.Name(m, 2) == G.StepsBack(4);
    EncodingStays(m, 4);
  }

  lemma StaysInTypes(m: string)
    requires |m| > 4 && m[0] == '_' && m[1] == 'Z' && m[2] == '1' && m[4] == 'u'
    requires ComesToSourceName(m, 2) && G.SourceName(m, 2).Accept? && G.SourceName(m, 2).next == 4
    requires G.Call(G.FType, m, 4) == G.StepsBack(4)
    ensures G.TopLevelMangledName(m) == G.StepsBack(4)
  {
    NoOtherName(m);
    R.AbiTagsRefuses(m, 4);
    assert G.UnqualifiedName(m, 2).Accept? && G.UnqualifiedName(m, 2).next == 4;
    R.TemplateArgsRefuses(m, 4);
    assert G.UnscopedTemplateName(m, 2) == G.UnscopedName(m, 2) == G.UnqualifiedName(m, 2);
    assert G.TemplateName(m, 2).Reject?;
    assert G.Name(m, 2).Accept? && G.Name(m, 2).next == 4;
    assert G.BareFunctionType(m, 4) == G.StepsBack(4);
    EncodingStays(m, 4);
  }

  lemma StaysInArguments(m: string)
    requires |m| > 5 && m[0] == '_' && m[1] == 'Z' && m[2] == '1' && m[4] == 'I'
    requires ComesToSourceName(m, 2) && G.SourceName(m, 2).Accept? && G.SourceName(m, 2).next == 4
    requires G.Call(G.FTemplateArg, m, 5) == G.StepsBack(5)
    ensures G.TopLevelMangledName(m) == G.StepsBack(5)
  {
    NoOtherName(m);
    R.AbiTagsRefuses(m, 4);
    assert G.UnqualifiedName(m, 2).Accept? && G.UnqualifiedName(m, 2).next == 4;
    assert G.UnscopedTemplateName(m, 2) == G.UnscopedName(m, 2) == G.UnqualifiedName(m, 2);
    assert G.TemplateArgs(m, 4) == G.StepsBack(5);
    assert G.TemplateName(m, 2) == G.StepsBack(5);
    assert G.Name(m, 2) == G.StepsBack(5);
    EncodingStays(m, 5);
  }
}
