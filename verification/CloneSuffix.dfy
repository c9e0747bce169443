// The suffixes GCC gives to clones of a function: .<alpha>+.<digit>+, repeated.
module CloneSuffix {
  import opened CStrings

  // One scan over str from i, consuming one suffix after the other.
  predicate Scan(str: string, i: nat)
    requires i <= |str|
    decreases |str| - i
  {
    if i == |str| then true
    else if str[i] != '.' || !IsAlpha(At(str, i + 1)) then false
    else
      var j := RunEnd(str, i + 2, IsAlpha);
      if At(str, j) != '.' || !IsDigit(At(str, j + 1)) then false
      else Scan(str, RunEnd(str, j + 2, IsDigit))
  }

  predicate IsFunctionCloneSuffix(str: string) { Scan(str, 0) }

  // ----- the language ----------------------------------------------------------

  datatype Clone = Clone(name: string, number: string) {
    ghost predicate Valid()
    {
      && name != [] && (forall k :: 0 <= k < |name| ==> IsAlpha(name[k]))
      && number != [] && (forall k :: 0 <= k < |number| ==> IsDigit(number[k]))
    }

    function Text(): string { "." + name + "." + number }
  }

  ghost predicate AllValid(clones: seq<Clone>)
  {
    forall k :: 0 <= k < |clones| ==> clones[k].Valid()
  }

  function Texts(clones: seq<Clone>): string
  {
    if clones == [] then "" else clones[0].Text() + Texts(clones[1..])
  }

  lemma SplitAtDots(str: string, i: nat, j: nat, k: nat)
    requires i < j < k <= |str| && str[i] == '.' && str[j] == '.'
    ensures str[i..] == Clone(str[i + 1..j], str[j + 1..k]).Text() + str[k..]
  {
    assert str[i..] == str[i..i + 1] + str[i + 1..j] + str[j..j + 1] + str[j + 1..k] + str[k..];
    assert str[i..i + 1] == "." && str[j..j + 1] == ".";
  }

  lemma AlphaThenDigits(str: string, i: nat, j: nat, k: nat)
    requires i + 2 <= j && j + 2 <= k <= |str| && IsAlpha(str[i + 1]) && IsDigit(str[j + 1])
    requires forall n :: i + 2 <= n < j ==> IsAlpha(str[n])
    requires forall n :: j + 2 <= n < k ==> IsDigit(str[n])
    ensures Clone(str[i + 1..j], str[j + 1..k]).Valid()
  {
  }

  lemma InFront(c: Clone, rest: seq<Clone>) returns (clones: seq<Clone>)
    requires c.Valid() && AllValid(rest)
    ensures AllValid(clones) && Texts(clones) == c.Text() + Texts(rest)
  {
    clones := [c] + rest;
    assert clones[1..] == rest;
  }

  // Accepted text starts with one.
  lemma ScanFirst(str: string, i: nat) returns (j: nat, k: nat)
    requires i < |str| && Scan(str, i)
    ensures i + 2 <= j && j + 2 <= k <= |str| && str[i] == '.' && str[j] == '.'
    ensures IsAlpha(str[i + 1]) && IsDigit(str[j + 1])
    ensures forall n :: i + 2 <= n < j ==> IsAlpha(str[n])
    ensures forall n :: j + 2 <= n < k ==> IsDigit(str[n])
    ensures Scan(str, k)
  {
    j := RunEnd(str, i + 2, IsAlpha);
    k := RunEnd(str, j + 2, IsDigit);
  }

  // Accepted text splits into clone suffixes.
  lemma {:induction false} ScanSplits(str: string, i: nat) returns (clones: seq<Clone>)
    requires i <= |str| && Scan(str, i)
    ensures AllValid(clones) && str[i..] == Texts(clones)
    decreases |str| - i
  {
    if i == |str| {
      clones := [];
    } else {
      var j, k := ScanFirst(str, i);
      hide Scan, Clone.Valid, Clone.Text, AllValid, Texts;
      var rest := ScanSplits(str, k);
      var c := Clone(str[i + 1..j], str[j + 1..k]);
      SplitAtDots(str, i, j, k);
      AlphaThenDigits(str, i, j, k);
      clones := InFront(c, rest);
    }
  }

  // Clone suffixes behind any text are accepted.
  lemma {:induction false} ScanAccepts(before: string, clones: seq<Clone>)
    requires AllValid(clones)
    ensures Scan(before + Texts(clones), |before|)
    decreases |clones|
  {
    if clones != [] {
      hide Scan;
      var c, rest := clones[0], Texts(clones[1..]);
      assert before + Texts(clones) == before + c.Text() + rest;
      assert rest != "" ==> rest[0] == '.' by {
        if rest != "" {
          assert rest == clones[1].Text() + Texts(clones[1..][1..]);
        }
      }
      ScanOne(before, c, rest);
      ScanAccepts(before + c.Text(), clones[1..]);
    }
  }

  lemma ScanStep(str: string, i: nat, j: nat, k: nat)
    requires i + 2 <= j && j + 2 <= k <= |str| && str[i] == '.' && str[j] == '.' && (k < |str| ==> str[k] == '.')
    requires forall n {:trigger str[n]} :: i + 1 <= n < j ==> IsAlpha(str[n])
    requires forall n {:trigger str[n]} :: j + 1 <= n < k ==> IsDigit(str[n])
    ensures Scan(str, i) == Scan(str, k)
  {
    RunEndIs(str, i + 2, j, IsAlpha);
    RunEndIs(str, j + 2, k, IsDigit);
  }

  lemma ScanOne(before: string, c: Clone, rest: string)
    requires c.Valid() && (rest != "" ==> rest[0] == '.')
    ensures var str := before + c.Text() + rest;
            Scan(str, |before|) == Scan(str, |before + c.Text()|)
  {
    hide Scan;
    var str, i := before + c.Text() + rest, |before|;
    var j := i + 1 + |c.name|;
    var k := j + 1 + |c.number|;
    assert str[i] == '.' && str[j] == '.';
    assert forall n {:trigger str[n]} :: i + 1 <= n < j ==> str[n] == c.name[n - i - 1];
    assert forall n {:trigger str[n]} :: j + 1 <= n < k ==> str[n] == c.number[n - j - 1];
    assert k < |str| ==> str[k] == rest[0];
    ScanStep(str, i, j, k);
  }

  // IsFunctionCloneSuffix decides the language (.<alpha>+.<digit>+)*.
  lemma CloneSuffixLanguage(str: string)
    ensures IsFunctionCloneSuffix(str) <==> exists clones :: AllValid(clones) && str == Texts(clones)
  {
    if IsFunctionCloneSuffix(str) {
      var clones := ScanSplits(str, 0);
      assert str[0..] == str;
      assert AllValid(clones) && str == Texts(clones);
    }
    if clones :| AllValid(clones) && str == Texts(clones) {
      ScanAccepts("", clones);
      assert "" + Texts(clones) == str;
    }
  }
}
