// Alternatives and sequences of parsing functions: what they accept and what they print,
// given what their parts do.
module Reading {
  import opened CStrings
  import opened Decimals
  import opened Options
  import opened Refusals
  import opened Tables
  import Output
  import opened Trace
  import opened TraceTheorems
  import A = Abi
  import G = Grammar

  // ----- pieces of text --------------------------------------------------------------------

  // The pieces printed one after the other.
  function Says(d: Ideal, pieces: seq<string>): Ideal
    decreases |pieces|
  {
    if pieces == [] then d else Says(Say(d, pieces[0]), pieces[1..])
  }

  lemma {:induction false} SaysKeeps(d: Ideal, pieces: seq<string>)
    ensures Says(d, pieces).append == d.append && Says(d, pieces).nest == d.nest
    decreases |pieces|
  {
    if pieces != [] {
      SaysKeeps(Say(d, pieces[0]), pieces[1..]);
    }
  }

  lemma {:induction false} SaysAtLevel(d: Ideal, nest: int, pieces: seq<string>)
    ensures Says(d.(nest := nest), pieces) == Says(d, pieces).(nest := nest)
    decreases |pieces|
  {
    if pieces != [] {
      assert Say(d.(nest := nest), pieces[0]) == Say(d, pieces[0]).(nest := nest);
      SaysAtLevel(Say(d, pieces[0]), nest, pieces[1..]);
    }
  }

  lemma {:induction false} SaysBoth(d: Ideal, first: seq<string>, second: seq<string>)
    ensures Says(d, first + second) == Says(Says(d, first), second)
    decreases |first|
  {
    if first == [] {
      assert first + second == second;
    } else {
      assert (first + second)[0] == first[0] && (first + second)[1..] == first[1..] + second;
      SaysBoth(Say(d, first[0]), first[1..], second);
    }
  }

  // The pieces joined are the text.
  lemma {:induction false} SaysText(d: Ideal, pieces: seq<string>)
    requires d.append
    ensures Says(d, pieces).text == A.Joined(d.text, pieces)
    decreases |pieces|
  {
    if pieces != [] {
      SayText(d, pieces[0]);
      SaysText(Say(d, pieces[0]), pieces[1..]);
    }
  }

  lemma SayText(d: Ideal, s: string)
    requires d.append
    ensures Say(d, s).text == A.Spaced(d.text, s)
  {
  }

  // And the last name among them is the one remembered.
  lemma {:induction false} SaysName(d: Ideal, pieces: seq<string>)
    requires d.append && A.LastName(pieces) != ""
    ensures Says(d, pieces).name == A.LastName(pieces)
    decreases |pieces|
  {
    var last := |pieces| - 1;
    assert pieces == pieces[..last] + [pieces[last]];
    SaysBoth(d, pieces[..last], [pieces[last]]);
    SaysKeeps(d, pieces[..last]);
    var e := Says(d, pieces[..last]);
    assert Says(e, [pieces[last]]) == Say(e, pieces[last]);
    if !A.StartsName(pieces[last]) {
      SaysName(d, pieces[..last]);
    }
  }

  // ----- reading -----------------------------------------------------------------------------

  // The parse succeeds at next and, with append on, prints these pieces and nothing after them.
  ghost predicate Reads(p: G.Parse, next: nat, d: Ideal, pieces: seq<string>)
  {
    && p.Accept? && p.next == next && pieces != []
    && (d.append ==> Meaning(p.t, d) == Says(d, pieces) && Ends(p.t, d))
  }

  // It succeeds and prints nothing.
  ghost predicate Skips(p: G.Parse, next: nat)
  {
    p.Accept? && p.next == next && Silent(p.t)
  }

  // It fails and leaves nothing behind.
  ghost predicate Fails(p: G.Parse)
  {
    p.Reject? && Settled(p.t)
  }

  lemma SilenceMeansNothing(t: Trace, d: Ideal)
    requires Silent(t)
    ensures Meaning(t, d) == d
  {
    SilentDoesNothing(t, Output.Initial(""), d, 0);
  }

  // What failed before makes no difference.
  lemma ReadSecond(x: G.Parse, y: G.Parse, next: nat, d: Ideal, pieces: seq<string>)
    requires Fails(x) && Reads(y, next, d, pieces)
    ensures Reads(x.Before(y), next, d, pieces)
  {
    SettledMeansNothing(x.t, d);
  }

  lemma FailSecond(x: G.Parse, y: G.Parse)
    requires Fails(x) && Fails(y)
    ensures Fails(x.Before(y))
  {
  }

  lemma ReadBoth(x: G.Parse, y: G.Parse, middle: nat, next: nat, d: Ideal, first: seq<string>, second: seq<string>)
    requires Reads(x, middle, d, first) && Reads(y, next, Says(d, first), second)
    ensures Reads(x.Before(y), next, d, first + second)
  {
    SaysBoth(d, first, second);
    SaysKeeps(d, first);
  }

  // The second part prints nothing.
  lemma ReadAndSkip(x: G.Parse, y: G.Parse, middle: nat, next: nat, d: Ideal, pieces: seq<string>)
    requires Reads(x, middle, d, pieces) && Skips(y, next)
    ensures Reads(x.Before(y), next, d, pieces)
  {
    SilenceMeansNothing(y.t, Says(d, pieces));
  }

  // The first part prints nothing.
  lemma SkipAndRead(x: G.Parse, y: G.Parse, middle: nat, next: nat, d: Ideal, pieces: seq<string>)
    requires Skips(x, middle) && Reads(y, next, d, pieces)
    ensures Reads(x.Before(y), next, d, pieces)
  {
    SilenceMeansNothing(x.t, d);
  }

  lemma SkipBoth(x: G.Parse, y: G.Parse, middle: nat, next: nat)
    requires Skips(x, middle) && Skips(y, next)
    ensures Skips(x.Before(y), next)
  {
  }

  // The parse succeeds at next, whatever it prints.
  predicate Takes(p: G.Parse, next: nat) { p.Accept? && p.next == next }

  // An optional part that is absent.
  lemma ReadNothing(x: G.Parse, i: nat)
    requires Refuses(x, i)
    ensures Skips(x.Optional(), i)
  {
  }

  lemma ReadOneMore(x: G.Parse, next: nat, d: Ideal, pieces: seq<string>, s: string)
    requires Reads(x, next, d, pieces) && s != ""
    ensures Reads(x.AndPut(s), next, d, pieces + [s])
  {
    SaysKeeps(d, pieces);
    SaysBoth(d, pieces, [s]);
    assert Says(Says(d, pieces), [s]) == Say(Says(d, pieces), s);
  }

  lemma ReadPut(x: G.Parse, next: nat, d: Ideal, s: string)
    requires Skips(x, next) && s != ""
    ensures Reads(x.AndPut(s), next, d, [s])
  {
    SilenceMeansNothing(x.t, d);
    assert Says(d, [s]) == Say(d, s);
  }

  // Traces that print one piece, two and three.
  lemma SaysOne(d: Ideal, s: string)
    ensures Says(d, [s]) == Say(d, s) == Meaning(Put(s), d)
  {
  }

  lemma SaysTwo(d: Ideal, s: string, s': string)
    ensures Says(d, [s, s']) == Say(Say(d, s), s') == Meaning(Then(Put(s), Put(s')), d)
  {
    assert [s, s'][1..] == [s'];
    SaysOne(Say(d, s), s');
  }

  lemma SaysThree(d: Ideal, s: string, s': string, s'': string)
    ensures Says(d, [s, s', s'']) == Meaning(Then(Put(s), Then(Put(s'), Put(s''))), d)
  {
    assert [s, s', s''][1..] == [s', s''];
    SaysTwo(Say(d, s), s', s'');
  }

  // A trace behind silence.
  lemma SilenceFirst(t: Trace, u: Trace, d: Ideal)
    requires Meaning(t, d) == d
    ensures Meaning(Then(t, u), d) == Meaning(u, d) && (Ends(u, d) ==> Ends(Then(t, u), d))
  {
  }

  lemma NilFirst(u: Trace, d: Ideal)
    ensures Meaning(Then(Nil, u), d) == Meaning(u, d) && (Ends(u, d) ==> Ends(Then(Nil, u), d))
  {
  }

  // With append off nothing is printed.
  lemma ReadQuietly(x: G.Parse, next: nat)
    requires x.Accept? && x.next == next && Level(x.t)
    ensures Skips(x.Quietly(), next)
  {
  }

  lemma ReadAtLevelZero(x: G.Parse, next: nat, d: Ideal, pieces: seq<string>)
    requires Reads(x, next, d.(nest := 0), pieces)
    ensures Reads(x.AtLevelZero(), next, d, pieces)
  {
    SaysAtLevel(d, 0, pieces);
    SaysKeeps(d, pieces);
  }

  // One character or two.
  lemma TokenRead(m: string, i: nat, c: char)
    requires i < |m| && m[i] == c && c != '\0'
    ensures Skips(G.Token(m, i, c), i + 1)
  {
  }

  lemma PrefixChar(m: string, i: nat, s: string)
    requires s != "" && HasPrefix(m, i, s)
    ensures i < |m| && m[i] == s[0] && (|s| > 1 ==> i + 1 < |m| && m[i + 1] == s[1])
  {
    PrefixChars(m, i, s);
  }

  // ----- numbers, parameters, identifiers -------------------------------------------------------

  lemma LengthRead(m: string, i: nat, n: nat, j: nat)
    requires HasPrefix(m, i, Decimal(n)) && j == i + |Decimal(n)|
    requires j < |m| ==> !IsDigit(m[j])
    ensures IsDigit(At(m, i)) && G.Number(m, i) == G.Accept(j, Nil) && G.NumberValue(m, i) == n
  {
    DecimalAt(m, i, n, j);
    RunEndIs(m, i, j, IsDigit);
  }

  lemma NumberRead(m: string, i: nat, n: int)
    requires HasPrefix(m, i, A.EncodeInt(n)) && !IsDigit(At(m, i + |A.EncodeInt(n)|))
    ensures Skips(G.Number(m, i), i + |A.EncodeInt(n)|)
  {
    if n < 0 {
      PrefixParts(m, i, "n", Decimal(-n));
      PrefixChar(m, i, "n");
      DecimalAt(m, i + 1, -n, i + |A.EncodeInt(n)|);
      RunEndIs(m, i + 1, i + |A.EncodeInt(n)|, IsDigit);
    } else {
      LengthRead(m, i, n, i + |A.EncodeInt(n)|);
    }
  }

  lemma AnonymousHere(m: string, e: nat, name: string)
    requires HasPrefix(m, e, name)
    ensures G.IsAnonymousNamespace(m, e, |name|) == A.Anonymous(name)
  {
    var prefix := A.ANONYMOUS;
    PrefixIs(m, e, name);
    PrefixIs(m, e, prefix);
    if |name| > |prefix| {
      assert m[e..e + |prefix|] == m[e..e + |name|][..|prefix|];
    }
  }

  lemma SourceNameIs(m: string, i: nat, name: string)
    requires A.IsIdentifier(name) && HasPrefix(m, i, A.Word(name))
    ensures G.SourceName(m, i) == G.Accept(i + |A.Word(name)|, Then(Nil, Put(A.ShownName(name)))) && IsDigit(At(m, i))
  {
    var n := Decimal(|name|);
    var e := i + |n|;
    PrefixParts(m, i, n, name);
    StartsWith(m, e, name);
    PrefixIs(m, e, name);
    LengthRead(m, i, |name|, e);
    AnonymousHere(m, e, name);
  }

  // A length and an identifier are read back, and print the identifier.
  lemma SourceNameRead(m: string, i: nat, name: string, d: Ideal)
    requires A.IsIdentifier(name) && HasPrefix(m, i, A.Word(name))
    ensures Reads(G.SourceName(m, i), i + |A.Word(name)|, d, [A.ShownName(name)]) && IsDigit(At(m, i))
  {
    hide G.SourceName, HasPrefix, Meaning, Says;
    SourceNameIs(m, i, name);
    SaysOne(d, A.ShownName(name));
    NilFirst(Put(A.ShownName(name)), d);
  }
}
