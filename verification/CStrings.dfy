// NUL-terminated strings, the character tests of the demangler and its tables.
module CStrings {

  // The characters before the terminating NUL.
  type CString = s: string | '\0' !in s

  // str[i], where reading just past the last character yields the terminator.
  function At(m: string, i: nat): char
  {
    if i < |m| then m[i] else '\0'
  }

  predicate IsLower(c: char) { 'a' <= c <= 'z' }

  predicate IsAlpha(c: char) { 'a' <= c <= 'z' || 'A' <= c <= 'Z' }

  predicate IsDigit(c: char) { '0' <= c <= '9' }

  // Characters of a float literal (lower-case hexadecimal).
  predicate IsFloatChar(c: char) { IsDigit(c) || 'a' <= c <= 'f' }

  // Characters of a sequence id (base 36, upper case).
  predicate IsSeqIdChar(c: char) { IsDigit(c) || 'A' <= c <= 'Z' }

  datatype Abbrev = Abbrev(abbrev: string, realName: string)

  // The tables of kOperatorList, kBuiltinTypeList and kSubstitutionList.
  datatype Table = Operators | BuiltinTypes | Substitutions {
    function Entries(): seq<Abbrev>
    {
      match this
      case Operators =>
        [Abbrev("nw", "new"), Abbrev("na", "new[]"), Abbrev("dl", "delete"), Abbrev("da", "delete[]"),
         Abbrev("ps", "+"), Abbrev("ng", "-"), Abbrev("ad", "&"), Abbrev("de", "*"), Abbrev("co", "~"),
         Abbrev("pl", "+")]
        + [Abbrev("mi", "-"), Abbrev("ml", "*"), Abbrev("dv", "/"), Abbrev("rm", "%"), Abbrev("an", "&"),
         Abbrev("or", "|"), Abbrev("eo", "^"), Abbrev("aS", "="), Abbrev("pL", "+="), Abbrev("mI", "-=")]
        + [Abbrev("mL", "*="), Abbrev("dV", "/="), Abbrev("rM", "%="), Abbrev("aN", "&="),
         Abbrev("oR", "|="), Abbrev("eO", "^="), Abbrev("ls", "<<"), Abbrev("rs", ">>"),
         Abbrev("lS", "<<="), Abbrev("rS", ">>=")]
        + [Abbrev("eq", "=="), Abbrev("ne", "!="), Abbrev("lt", "<"), Abbrev("gt", ">"), Abbrev("le", "<="),
         Abbrev("ge", ">="), Abbrev("nt", "!"), Abbrev("aa", "&&"), Abbrev("oo", "||"), Abbrev("pp", "++")]
        + [Abbrev("mm", "--"), Abbrev("cm", ","), Abbrev("pm", "->*"), Abbrev("pt", "->"),
         Abbrev("cl", "()"), Abbrev("ix", "[]"), Abbrev("qu", "?"), Abbrev("st", "sizeof"),
         Abbrev("sz", "sizeof")]
      case BuiltinTypes => [
        Abbrev("v", "void"), Abbrev("w", "wchar_t"), Abbrev("b", "bool"), Abbrev("c", "char"),
        Abbrev("a", "signed char"), Abbrev("h", "unsigned char"), Abbrev("s", "short"),
        Abbrev("t", "unsigned short"), Abbrev("i", "int"), Abbrev("j", "unsigned int"),
        Abbrev("l", "long"), Abbrev("m", "unsigned long"), Abbrev("x", "long long"),
        Abbrev("y", "unsigned long long"), Abbrev("n", "__int128"), Abbrev("o", "unsigned __int128"),
        Abbrev("f", "float"), Abbrev("d", "double"), Abbrev("e", "long double"),
        Abbrev("g", "__float128"), Abbrev("z", "ellipsis")]
      case Substitutions => [
        Abbrev("St", ""), Abbrev("Sa", "allocator"), Abbrev("Sb", "basic_string"),
        Abbrev("Ss", "string"), Abbrev("Si", "istream"), Abbrev("So", "ostream"),
        Abbrev("Sd", "iostream")]
    }
  }

  // Does the entry's abbreviation have character c at position at?
  predicate Spells(a: Abbrev, at: nat, c: char) { At(a.abbrev, at) == c }

  // First index at or after k whose entry spells c at position p and, if d is
  // given, d at the next position; the table's length if there is none.
  function Find(table: seq<Abbrev>, k: nat, p: nat, c: char, d: seq<char>): (r: nat)
    requires k <= |table| && |d| <= 1
    ensures k <= r <= |table|
    ensures r < |table| ==> Spells(table[r], p, c)
    decreases |table| - k
  {
    if k == |table| then k
    else if Spells(table[k], p, c) && (|d| == 1 ==> Spells(table[k], p + 1, d[0])) then k
    else Find(table, k + 1, p, c, d)
  }

  method Search(table: Table, at: nat, c: char, d: seq<char>) returns (p: nat)
    requires |d| <= 1
    ensures p == Find(table.Entries(), 0, at, c, d)
  {
    var entries := table.Entries();
    p := 0;
    while p < |entries|
      invariant p <= |entries| && Find(entries, 0, at, c, d) == Find(entries, p, at, c, d)
    {
      if Spells(entries[p], at, c) && (|d| == 1 ==> Spells(entries[p], at + 1, d[0])) {
        return;
      }
      p := p + 1;
    }
  }

  function FindOperator(c: char, d: char): (r: nat)
    ensures r <= |Operators.Entries()|
  {
    Find(Operators.Entries(), 0, 0, c, [d])
  }

  function FindBuiltin(c: char): (r: nat)
    ensures r <= |BuiltinTypes.Entries()|
    ensures r < |BuiltinTypes.Entries()| ==> Spells(BuiltinTypes.Entries()[r], 0, c)
  {
    Find(BuiltinTypes.Entries(), 0, 0, c, [])
  }

  function FindSubstitution(c: char): (r: nat)
    ensures r <= |Substitutions.Entries()|
  {
    Find(Substitutions.Entries(), 0, 1, c, [])
  }

  // AtLeastNumCharsRemaining: n characters before the terminator (any negative n will do).
  predicate Remaining(m: string, i: nat, n: int) { i + n <= |m| || n <= 0 }

  // StrPrefix: does m at position i start with the given prefix?
  predicate HasPrefix(m: string, i: nat, prefix: string): (r: bool)
    ensures r ==> i + |prefix| <= |m|
    decreases |prefix|
  {
    if prefix == "" then i <= |m|
    else i < |m| && m[i] == prefix[0] && HasPrefix(m, i + 1, prefix[1..])
  }

  // It does exactly if the prefix is the text from i on.
  lemma {:induction false} PrefixIs(m: string, i: nat, prefix: string)
    ensures HasPrefix(m, i, prefix) <==> i + |prefix| <= |m| && m[i..i + |prefix|] == prefix
    decreases |prefix|
  {
    if prefix != "" {
      PrefixIs(m, i + 1, prefix[1..]);
      if i + |prefix| <= |m| {
        var text := m[i..i + |prefix|];
        assert text[1..] == m[i + 1..i + |prefix|];
        assert text == [text[0]] + text[1..] && prefix == [prefix[0]] + prefix[1..];
      }
    }
  }

  lemma {:induction false} PrefixChars(m: string, i: nat, prefix: string)
    requires HasPrefix(m, i, prefix)
    ensures forall k {:trigger m[k]} :: i <= k < i + |prefix| ==> m[k] == prefix[k - i]
    decreases |prefix|
  {
    if prefix != "" {
      PrefixChars(m, i + 1, prefix[1..]);
    }
  }

  // End of the maximal run of characters of one kind that starts at i.
  function RunEnd(m: string, i: nat, p: char -> bool): (j: nat)
    requires i <= |m|
    ensures i <= j <= |m|
    ensures forall k :: i <= k < j ==> p(m[k])
    ensures j < |m| ==> !p(m[j])
    decreases |m| - i
  {
    if i < |m| && p(m[i]) then RunEnd(m, i + 1, p) else i
  }

  // A run that stops at a character of another kind ends there.
  lemma {:induction false} RunEndIs(m: string, i: nat, j: nat, p: char -> bool)
    requires i <= j <= |m| && (forall k :: i <= k < j ==> p(m[k])) && (j < |m| ==> !p(m[j]))
    ensures RunEnd(m, i, p) == j
    decreases j - i
  {
    if i < j {
      RunEndIs(m, i + 1, j, p);
    }
  }

  // strchr from position i; the length of s if c does not occur.
  function IndexOf(s: string, i: nat, c: char): (j: nat)
    requires i <= |s|
    ensures i <= j <= |s|
    ensures j < |s| ==> s[j] == c
    decreases |s| - i
  {
    if i == |s| || s[i] == c then i else IndexOf(s, i + 1, c)
  }

  lemma {:induction false} IndexIs(s: string, i: nat, j: nat, c: char)
    requires i <= j <= |s| && (forall k :: i <= k < j ==> s[k] != c) && (j < |s| ==> s[j] == c)
    ensures IndexOf(s, i, c) == j
    decreases j - i
  {
    if i < j {
      IndexIs(s, i + 1, j, c);
    }
  }
}
