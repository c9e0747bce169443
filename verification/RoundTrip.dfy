// Demangling an encoded symbol gives back its text.
module RoundTrip {
  import opened Acceptance
  import opened CStrings
  import opened CloneSuffix
  import opened Decimals
  import opened FirstCharacters
  import opened Options
  import opened Outcomes
  import opened Output
  import opened Reading
  import opened ReadingParts
  import opened SpareRoom
  import opened Trace
  import opened TraceTheorems
  import A = Abi
  import D = Demangler
  import G = Grammar
  import P = PlainText

  // ----- the whole name --------------------------------------------------------------------------

  // Nothing, suffixes of clones, or a version.
  predicate IsSuffix(suffix: string)
  {
    IsFunctionCloneSuffix(suffix) || (suffix != "" && suffix[0] == '@')
  }

  // _Z, an encoding and a suffix.
  lemma TopLevelRead(m: string, end: nat, suffix: string, ps: seq<string>)
    requires |m| >= 2 && m[0] == '_' && m[1] == 'Z' && Reads(G.Encoding(m, 2), end, START, ps)
    requires end <= |m| && m[end..] == suffix && IsSuffix(suffix)
    ensures Reads(G.TopLevelMangledName(m), end, START, ps + A.SuffixPieces(suffix))
  {
    hide G.Encoding, Meaning, Says, Ends;
    TokensHere(m, 0, '_', 'Z');
    SkipAndRead(G.TwoTokens(m, 0, '_', 'Z'), G.Encoding(m, 2), 2, end, START, ps);
    var x := G.MangledName(m, 0);
    assert x == G.TwoTokens(m, 0, '_', 'Z').Before(G.Encoding(m, 2));
    hide G.MangledName;
    if suffix != "" && suffix[0] == '@' {
      ReadOneMore(x, end, START, ps, suffix);
      assert G.TopLevelMangledName(m) == x.AndPut(suffix);
    } else {
      assert ps + [] == ps;
    }
  }

  // Every mangled name is accepted and means its pieces.
  lemma MangledRead(symbol: A.Encoding, suffix: string) returns (p: G.Parse)
    requires A.ValidEncoding(symbol) && IsSuffix(suffix)
    ensures p == G.TopLevelMangledName(A.Mangled(symbol, suffix)) && p.Accept? && A.EncodingPieces(symbol) != []
    ensures Meaning(p.t, START) == Says(START, A.EncodingPieces(symbol) + A.SuffixPieces(suffix)) && Ends(p.t, START)
  {
    hide G.Encoding, G.TopLevelMangledName, HasPrefix, Meaning, Says, Ends, A.EncodeEncoding, A.EncodingPieces;
    var m, code := A.Mangled(symbol, suffix), A.EncodeEncoding(symbol);
    var end := 2 + |code|;
    PrefixIs(m, 0, m);
    PrefixParts(m, 0, "_Z", code + suffix);
    PrefixParts(m, 2, code, suffix);
    PrefixChar(m, 0, "_Z");
    PrefixIs(m, end, suffix);
    EncodingRead(symbol, m, 2, START);
    TopLevelRead(m, end, suffix, A.EncodingPieces(symbol));
    p := G.TopLevelMangledName(m);
  }

  // ----- the round trip ----------------------------------------------------------------------------

  lemma StartHolds(out: string)
    ensures Holds(Initial(out), START)
  {
  }

  // The text of a mangled name is the one the ABI asks for.
  lemma TextIsShown(symbol: A.Encoding, suffix: string)
    requires A.ValidEncoding(symbol) && IsSuffix(suffix)
    ensures G.TopLevelMangledName(A.Mangled(symbol, suffix)).Accept?
    ensures TextOf(A.Mangled(symbol, suffix)) == A.Shown(symbol, suffix)
  {
    hide G.TopLevelMangledName, Meaning, Says, A.EncodingPieces, A.Mangled;
    var p := MangledRead(symbol, suffix);
    SaysText(START, A.EncodingPieces(symbol) + A.SuffixPieces(suffix));
  }

  // No text is empty; without a version behind it, none ends in "< <".
  lemma ShownIsPlain(symbol: A.Encoding, suffix: string)
    requires A.ValidEncoding(symbol)
    ensures A.EncodingPieces(symbol) != [] ==> A.Shown(symbol, suffix) != ""
    ensures EndsSpaced(A.Shown(symbol, suffix)) ==> A.SuffixPieces(suffix) != [] && EndsSpaced(suffix)
  {
    hide A.EncodingPieces, A.Joined;
    var ps := A.EncodingPieces(symbol);
    P.EncodingPlain(symbol);
    P.NeverSpaced(ps);
    if A.SuffixPieces(suffix) == [] {
      assert ps + [] == ps;
    } else {
      P.JoinedLast("", ps, suffix);
      VersionEnd(A.Joined("", ps), suffix);
    }
  }

  lemma VersionEnd(front: string, suffix: string)
    requires suffix != "" && suffix[0] == '@'
    ensures A.Spaced(front, suffix) == front + suffix
    ensures EndsSpaced(front + suffix) ==> EndsSpaced(suffix)
  {
    if EndsSpaced(front + suffix) {
      var text := front + suffix;
      var n := |text|;
      P.SpacedChars(text);
      assert text[n - 3..][0] == text[n - 3] == '<';
      assert text[n - |suffix|] == '@';
      assert suffix[|suffix| - 3..] == text[n - 3..];
    }
  }

  // With three bytes to spare, demangling leaves the text and a NUL.
  lemma RoundTrip(symbol: A.Encoding, suffix: string, out: string)
    requires A.ValidEncoding(symbol) && IsSuffix(suffix) && |A.Shown(symbol, suffix)| + 3 <= |out|
    ensures var r, text := Demangled(A.Mangled(symbol, suffix), out), A.Shown(symbol, suffix);
      r.ok && |r.out| == |out| && text <= r.out && r.out[|text|] == '\0'
  {
    hide G.TopLevelMangledName, Meaning, Says, Ends, A.EncodingPieces, A.Mangled, Holds, A.Shown;
    var p := MangledRead(symbol, suffix);
    TextIsShown(symbol, suffix);
    ThreeBytesToSpare(A.Mangled(symbol, suffix), out);
    StartHolds(out);
    EndsWithNul(p.t, Initial(out), START);
  }

  // In a buffer that does not hold the text and a NUL, the answer is false.  Only a version
  // that ends in "< <" may make an exception of the buffer as long as the text.
  lemma NoRoom(symbol: A.Encoding, suffix: string, out: string)
    requires A.ValidEncoding(symbol) && IsSuffix(suffix) && |out| <= |A.Shown(symbol, suffix)|
    requires |out| == |A.Shown(symbol, suffix)| && A.SuffixPieces(suffix) != [] ==> !EndsSpaced(suffix)
    ensures !Demangled(A.Mangled(symbol, suffix), out).ok
  {
    hide G.TopLevelMangledName, A.EncodingPieces, A.Mangled, A.Shown;
    var p := MangledRead(symbol, suffix);
    TextIsShown(symbol, suffix);
    ShownIsPlain(symbol, suffix);
    TooSmallRefused(A.Mangled(symbol, suffix), out);
  }

  // The demangler run on a mangled name.
  method DemangleSymbol(m: CString, ghost symbol: A.Encoding, ghost suffix: string, out: array<char>) returns (ok: bool)
    requires A.ValidEncoding(symbol) && IsSuffix(suffix) && m == A.Mangled(symbol, suffix)
    modifies out
    ensures var text := A.Shown(symbol, suffix);
      && (|text| + 3 <= out.Length ==> ok && text <= out[..] && out[|text|] == '\0')
      && (out.Length <= |text| && A.SuffixPieces(suffix) == [] ==> !ok)
  {
    hide G.TopLevelMangledName, A.EncodingPieces, A.Mangled, A.Shown, Demangled, TextOf;
    ghost var text, before := A.Shown(symbol, suffix), out[..];
    TextIsShown(symbol, suffix);
    ok := D.Demangle(m, out);
    if |text| + 3 <= out.Length {
      RoundTrip(symbol, suffix, before);
    }
    if out.Length <= |text| && A.SuffixPieces(suffix) == [] {
      NoRoom(symbol, suffix, before);
    }
  }
}
