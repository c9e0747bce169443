// The glob matcher of --vmodule, and how far it agrees with what globs mean.
module FnMatch {

  // What SafeFNMatch_ computes.  A '*' that meets a '*' in the string is taken
  // literally, and a '*' followed by more pattern never takes the whole rest.
  predicate Match(pattern: string, str: string)
    decreases |pattern|, |str|, 1
  {
    if pattern == "" then str == ""
    else if str == "" then pattern == "*"
    else if pattern[0] == str[0] || pattern[0] == '?' then Match(pattern[1..], str[1..])
    else if pattern[0] == '*' then |pattern| == 1 || MatchSuffix(pattern[1..], str)
    else false
  }

  // Does some non-empty suffix of str match?
  predicate MatchSuffix(pattern: string, str: string)
    requires str != ""
    decreases |pattern|, |str|, 2
  {
    Match(pattern, str) || (|str| > 1 && MatchSuffix(pattern, str[1..]))
  }

  method SafeFNMatch(pattern: string, str: string) returns (r: bool)
    ensures r == Match(pattern, str)
    decreases |pattern|
  {
    var p, s := 0, 0;
    while true
      invariant p <= |pattern| && s <= |str|
      invariant Match(pattern, str) == Match(pattern[p..], str[s..])
      decreases |pattern| - p
    {
      if p == |pattern| && s == |str| {
        return true;
      }
      if p == |pattern| {
        return false;
      }
      if s == |str| {
        return p + 1 == |pattern| && pattern[p] == '*';
      }
      if pattern[p] == str[s] || pattern[p] == '?' {
        p, s := p + 1, s + 1;
        continue;
      }
      if pattern[p] == '*' {
        if p + 1 == |pattern| {
          return true;
        }
        assert pattern[p..][1..] == pattern[p + 1..];
        while true
          invariant s < |str|
          invariant Match(pattern, str) == MatchSuffix(pattern[p + 1..], str[s..])
          decreases |str| - s
        {
          var matched := SafeFNMatch(pattern[p + 1..], str[s..]);
          if matched {
            return true;
          }
          assert str[s..][1..] == str[s + 1..];
          s := s + 1;
          if s == |str| {
            break;
          }
        }
        return false;
      }
      return false;
    }
  }

  // ----- what a glob means ---------------------------------------------------------

  // '*' stands for any run of characters, '?' for one, others for themselves.
  ghost predicate Glob(pattern: string, str: string)
    decreases |pattern|, 0
  {
    if pattern == "" then str == ""
    else if pattern[0] == '*' then exists k :: 0 <= k <= |str| && GlobFrom(pattern[1..], str, k)
    else str != "" && (pattern[0] == '?' || pattern[0] == str[0]) && Glob(pattern[1..], str[1..])
  }

  ghost predicate GlobFrom(pattern: string, str: string, k: nat)
    requires k <= |str|
    decreases |pattern|, 1
  {
    Glob(pattern, str[k..])
  }

  // Whatever is matched is meant by the glob.
  lemma {:induction false} MatchIsSound(pattern: string, str: string)
    requires Match(pattern, str)
    ensures Glob(pattern, str)
    decreases |pattern|, |str|
  {
    if pattern != "" {
      if str == "" {
        assert pattern[1..] == "" && GlobFrom(pattern[1..], str, 0);
      } else if pattern[0] == str[0] || pattern[0] == '?' {
        MatchIsSound(pattern[1..], str[1..]);
        assert pattern[0] == '*' ==> GlobFrom(pattern[1..], str, 1);
      } else if |pattern| == 1 {
        assert pattern[1..] == "" && GlobFrom(pattern[1..], str, |str|);
      } else {
        var k := SuffixMatched(pattern[1..], str);
        MatchIsSound(pattern[1..], str[k..]);
        assert GlobFrom(pattern[1..], str, k);
      }
    }
  }

  lemma {:induction false} SuffixMatched(pattern: string, str: string) returns (k: nat)
    requires str != "" && MatchSuffix(pattern, str)
    ensures k < |str| && Match(pattern, str[k..])
    decreases |str|
  {
    if Match(pattern, str) {
      k := 0;
      assert str[0..] == str;
    } else {
      k := SuffixMatched(pattern, str[1..]);
      assert str[1..][k..] == str[k + 1..];
      k := k + 1;
    }
  }

  lemma {:induction false} SuffixFound(pattern: string, str: string, k: nat)
    requires k < |str| && Match(pattern, str[k..])
    ensures MatchSuffix(pattern, str)
    decreases k
  {
    if k == 0 {
      assert str[0..] == str;
    } else {
      assert str[1..][k - 1..] == str[k..];
      SuffixFound(pattern, str[1..], k - 1);
    }
  }

  predicate EndsInTwoStars(pattern: string)
  {
    |pattern| >= 2 && pattern[|pattern| - 1] == '*' && pattern[|pattern| - 2] == '*'
  }

  // Only stars match the empty string.
  lemma {:induction false} OnlyStars(pattern: string)
    requires Glob(pattern, "")
    ensures forall k :: 0 <= k < |pattern| ==> pattern[k] == '*'
  {
    if pattern != "" {
      var k :| 0 <= k <= |""| && GlobFrom(pattern[1..], "", k);
      assert ""[k..] == "";
      OnlyStars(pattern[1..]);
    }
  }

  // On strings without stars, whatever the glob means is matched, unless the
  // pattern ends in two stars.
  lemma {:induction false} MatchIsComplete(pattern: string, str: string)
    requires Glob(pattern, str) && '*' !in str && !EndsInTwoStars(pattern)
    ensures Match(pattern, str)
    decreases |pattern|, 0
  {
    if pattern != "" {
      if pattern[0] != '*' {
        MatchIsComplete(pattern[1..], str[1..]);
      } else if |pattern| > 1 {
        var k :| 0 <= k <= |str| && GlobFrom(pattern[1..], str, k);
        if k == |str| {
          assert str[k..] == "";
          OnlyStars(pattern[1..]);
        }
        StarIsComplete(pattern[1..], str, k);
      }
    }
  }

  // The part behind a star, if it fits from position k on.
  lemma {:induction false} StarIsComplete(pattern: string, str: string, k: nat)
    requires k < |str| && '*' !in str && !EndsInTwoStars(pattern)
    requires Glob(pattern, str[k..])
    ensures MatchSuffix(pattern, str)
    decreases |pattern|, 1
  {
    MatchIsComplete(pattern, str[k..]);
    SuffixFound(pattern, str, k);
  }

  // The shortest string a glob stands for.
  function Shortest(pattern: string): string
  {
    if pattern == "" then ""
    else if pattern[0] == '*' then Shortest(pattern[1..])
    else [if pattern[0] == '?' then 'x' else pattern[0]] + Shortest(pattern[1..])
  }

  lemma {:induction false} ShortestMeant(pattern: string)
    ensures Glob(pattern, Shortest(pattern)) && '*' !in Shortest(pattern)
  {
    if pattern != "" {
      ShortestMeant(pattern[1..]);
      assert pattern[0] == '*' ==> GlobFrom(pattern[1..], Shortest(pattern), 0);
    }
  }

  // Two final stars are matched only if something is left for the last one.
  lemma {:induction false} TwoStarsTakeMore(pattern: string, str: string)
    requires EndsInTwoStars(pattern) && '*' !in str && Match(pattern, str)
    ensures |str| > |Shortest(pattern)|
    decreases |pattern|, |str|
  {
    if pattern[0] == str[0] || pattern[0] == '?' {
      TwoStarsTakeMore(pattern[1..], str[1..]);
    } else if |pattern| > 2 {
      var k := SuffixMatched(pattern[1..], str);
      TwoStarsTakeMore(pattern[1..], str[k..]);
    } else {
      assert Shortest(pattern[1..]) == Shortest(pattern[1..][1..]);
    }
  }

  // The matcher does what globs mean, for all strings without stars, exactly when
  // the pattern does not end in two stars.
  lemma MatchIsGlob(pattern: string)
    ensures (forall str :: '*' !in str ==> (Match(pattern, str) <==> Glob(pattern, str))) <==> !EndsInTwoStars(pattern)
  {
    if EndsInTwoStars(pattern) {
      var str := Shortest(pattern);
      ShortestMeant(pattern);
      if Match(pattern, str) {
        TwoStarsTakeMore(pattern, str);
      }
      assert '*' !in str && Glob(pattern, str) && !Match(pattern, str);
    } else {
      forall str | '*' !in str
        ensures Match(pattern, str) <==> Glob(pattern, str)
      {
        if Match(pattern, str) {
          MatchIsSound(pattern, str);
        }
        if Glob(pattern, str) {
          MatchIsComplete(pattern, str);
        }
      }
    }
  }

  // Without stars the matcher compares character by character.
  lemma {:induction false} StarFreeMatch(pattern: string, str: string)
    requires '*' !in pattern
    ensures Match(pattern, str) <==> Glob(pattern, str)
    ensures Match(pattern, str) ==> |pattern| == |str|
  {
    if pattern != "" && str != "" {
      StarFreeMatch(pattern[1..], str[1..]);
    }
  }

  // A string that repeats the pattern up to its last star and goes on with a character
  // too many: the stars of the pattern are spent on those of the string.
  function Repeated(pattern: string): string
    requires '*' in pattern
  {
    if '*' in pattern[1..] then [pattern[0]] + Repeated(pattern[1..])
    else if pattern[0] == '*' then "*y" + Shortest(pattern[1..])
    else assert false; ""
  }

  lemma {:induction false} RepeatedMeant(pattern: string)
    requires '*' in pattern
    ensures Glob(pattern, Repeated(pattern))
  {
    var str := Repeated(pattern);
    if '*' in pattern[1..] {
      RepeatedMeant(pattern[1..]);
      assert str[1..] == Repeated(pattern[1..]);
      assert pattern[0] == '*' ==> GlobFrom(pattern[1..], str, 1);
    } else {
      ShortestMeant(pattern[1..]);
      assert str[2..] == Shortest(pattern[1..]);
      assert GlobFrom(pattern[1..], str, 2);
    }
  }

  lemma {:induction false} ShortestLength(pattern: string)
    requires '*' !in pattern
    ensures |Shortest(pattern)| == |pattern|
  {
    if pattern != "" {
      ShortestLength(pattern[1..]);
    }
  }

  lemma {:induction false} RepeatedRefused(pattern: string)
    requires '*' in pattern
    ensures Repeated(pattern) != "" && !Match(pattern, Repeated(pattern))
  {
    var str := Repeated(pattern);
    if '*' in pattern[1..] {
      RepeatedRefused(pattern[1..]);
      assert str[1..] == Repeated(pattern[1..]);
    } else {
      assert str[1..] == "y" + Shortest(pattern[1..]);
      ShortestLength(pattern[1..]);
      StarFreeMatch(pattern[1..], str[1..]);
    }
  }

  // On all strings, those with stars included, the matcher does what globs mean exactly
  // when the pattern has no star.
  lemma MatchIsGlobEverywhere(pattern: string)
    ensures (forall str :: Match(pattern, str) <==> Glob(pattern, str)) <==> '*' !in pattern
  {
    if '*' in pattern {
      RepeatedMeant(pattern);
      RepeatedRefused(pattern);
      var str := Repeated(pattern);
      assert Glob(pattern, str) && !Match(pattern, str);
    } else {
      forall str
        ensures Match(pattern, str) <==> Glob(pattern, str)
      {
        StarFreeMatch(pattern, str);
      }
    }
  }

  // A prefix and a final star: the star takes whatever is left, but nothing behind a star
  // that the rest begins with.
  lemma {:induction false} FinalStar(prefix: string, str: string)
    requires '*' !in prefix
    ensures Match(prefix + "*", str) <==>
              && |prefix| <= |str|
              && (forall k :: 0 <= k < |prefix| ==> prefix[k] == '?' || prefix[k] == str[k])
              && (|prefix| < |str| && str[|prefix|] == '*' ==> |str| == |prefix| + 1)
  {
    var pattern := prefix + "*";
    if prefix != "" && str != "" {
      assert pattern[1..] == prefix[1..] + "*";
      FinalStar(prefix[1..], str[1..]);
      assert forall k :: 1 <= k < |prefix| ==> prefix[k] == prefix[1..][k - 1];
      assert forall k :: 1 <= k < |str| ==> str[k] == str[1..][k - 1];
    } else {
      assert prefix == "" ==> pattern == "*";
      assert pattern != "*" ==> prefix != "";
    }
  }

  // Before more pattern, too, a star that meets a star takes it and nothing else.
  lemma StarTakesStar(pattern: string, str: string)
    ensures Match("*" + pattern, "*" + str) <==> Match(pattern, str)
  {
    assert ("*" + pattern)[1..] == pattern && ("*" + str)[1..] == str;
  }

  // ----- patterns without wildcards ----------------------------------------------------

  predicate Literal(pattern: string) { '*' !in pattern && '?' !in pattern }

  // A literal pattern matches itself and nothing else.
  lemma {:induction false} LiteralMatch(pattern: string, str: string)
    requires Literal(pattern)
    ensures Match(pattern, str) <==> pattern == str
  {
    if pattern != "" && str != "" {
      LiteralMatch(pattern[1..], str[1..]);
      assert pattern == [pattern[0]] + pattern[1..] && str == [str[0]] + str[1..];
    }
  }

  // Every string matches itself as a pattern.
  lemma {:induction false} MatchReflexive(str: string)
    ensures Match(str, str)
  {
    if str != "" {
      MatchReflexive(str[1..]);
    }
  }
}
