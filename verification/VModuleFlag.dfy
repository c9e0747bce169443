// The syntax of --vmodule: pattern=level,pattern=level,...
module VModuleFlag {
  import opened CStrings
  import opened Decimals
  import opened Options

  datatype Entry = Entry(pattern: string, level: int)

  predicate IsSpace(c: char)
  {
    c == ' ' || '\t' <= c <= '\r'
  }

  // What sscanf reads for %d at position i: spaces, a sign, digits.
  function ScanInt(s: string, i: nat): Option<int>
    requires i <= |s|
  {
    var j := RunEnd(s, i, IsSpace);
    var k := if At(s, j) == '-' || At(s, j) == '+' then j + 1 else j;
    var end := RunEnd(s, k, IsDigit);
    if end == k then None
    else
      var n: int := ValueAt(s, k, end);
      Some(if At(s, j) == '-' then -n else n)
  }

  // Behind the spaces from i stands, at k, what is no space, and j is k or behind a sign there.
  ghost predicate LevelAt(s: string, i: nat, k: nat, j: nat)
  {
    && i <= k <= j <= |s| && (forall n :: i <= n < k ==> IsSpace(s[n])) && (k < |s| ==> !IsSpace(s[k]))
    && (j == k || (j == k + 1 && (s[k] == '-' || s[k] == '+')))
    && (j == k && k < |s| ==> s[k] != '-' && s[k] != '+')
  }

  lemma LevelStart(s: string, i: nat) returns (k: nat, j: nat)
    requires i <= |s|
    ensures LevelAt(s, i, k, j)
  {
    k := RunEnd(s, i, IsSpace);
    j := if At(s, k) == '-' || At(s, k) == '+' then k + 1 else k;
  }

  // No level is read exactly if behind the spaces and a sign there stands no digit.
  lemma NoLevel(s: string, i: nat, k: nat, j: nat)
    requires LevelAt(s, i, k, j)
    ensures ScanInt(s, i) == None <==> !IsDigit(At(s, j))
  {
    RunEndIs(s, i, k, IsSpace);
  }

  // Else the digits give the level, negative behind a minus and not behind a plus.
  lemma LevelRead(s: string, i: nat, k: nat, j: nat, end: nat)
    requires LevelAt(s, i, k, j) && j < end <= |s| && !IsDigit(At(s, end))
    requires forall n :: j <= n < end ==> IsDigit(s[n])
    ensures var value: int := ValueAt(s, j, end);
            ScanInt(s, i) == Some(if k < j && s[k] == '-' then -value else value)
  {
    RunEndIs(s, i, k, IsSpace);
    RunEndIs(s, j, end, IsDigit);
  }

  // The entry of the segment from i whose '=' is at sep.
  function Segment(s: string, i: nat, sep: nat): seq<Entry>
    requires i <= sep < |s|
  {
    match ScanInt(s, sep + 1)
    case Some(level) => [Entry(s[i..sep], level)]
    case None => []
  }

  // The entries of the flag from position i on.
  function Parse(s: string, i: nat): seq<Entry>
    requires i <= |s|
    decreases |s| - i
  {
    var sep := IndexOf(s, i, '=');
    if sep == |s| then []
    else
      var comma := IndexOf(s, sep, ',');
      if comma == |s| then Segment(s, i, sep)
      else Segment(s, i, sep) + Parse(s, comma + 1)
  }

  // ----- printing a flag ---------------------------------------------------------------

  function PrintInt(n: int): string
  {
    if n < 0 then "-" + Decimal(-n) else Decimal(n)
  }

  function PrintEntry(e: Entry): string
  {
    e.pattern + ("=" + PrintInt(e.level))
  }

  function Print(entries: seq<Entry>): string
  {
    if entries == [] then ""
    else if |entries| == 1 then PrintEntry(entries[0])
    else PrintEntry(entries[0]) + ("," + Print(entries[1..]))
  }

  // ----- the round trip -----------------------------------------------------------------

  // A printed level is read back whatever follows it, as long as that is no digit.
  lemma ScanPrinted(s: string, i: nat, n: int, end: nat)
    requires HasPrefix(s, i, PrintInt(n)) && end == i + |PrintInt(n)|
    requires end < |s| ==> !IsDigit(s[end])
    ensures ScanInt(s, i) == Some(n)
  {
    var digits := if n < 0 then -n else n;
    var k := if n < 0 then i + 1 else i;
    if n < 0 {
      PrefixParts(s, i, "-", Decimal(digits));
      assert s[i] == s[i..i + 1][0] == '-';
    }
    DecimalAt(s, k, digits, end);
    RunEndIs(s, k, end, IsDigit);
    RunEndIs(s, i, i, IsSpace);
  }

  lemma PrintedHasNoComma(n: int)
    ensures ',' !in PrintInt(n)
  {
    DecimalDigits(if n < 0 then -n else n);
  }

  // Where the parts of a printed entry stand.
  lemma EntryParts(s: string, i: nat, e: Entry, sep: nat, end: nat)
    requires '=' !in e.pattern && HasPrefix(s, i, PrintEntry(e))
    requires sep == i + |e.pattern| && end == sep + 1 + |PrintInt(e.level)|
    ensures end <= |s| && s[sep] == '=' && s[i..sep] == e.pattern
    ensures HasPrefix(s, sep + 1, PrintInt(e.level))
    ensures forall k :: i <= k < sep ==> s[k] != '='
    ensures forall k :: sep <= k < end ==> s[k] != ','
  {
    PrefixParts(s, i, e.pattern, "=" + PrintInt(e.level));
    PrefixParts(s, sep, "=", PrintInt(e.level));
    PrefixIs(s, i, e.pattern);
    PrefixChars(s, i, e.pattern);
    PrefixChars(s, sep + 1, PrintInt(e.level));
    PrintedHasNoComma(e.level);
  }

  // One printed entry at i, followed by the end or a comma, is read.
  lemma EntryRead(s: string, i: nat, e: Entry, sep: nat, end: nat)
    requires '=' !in e.pattern && HasPrefix(s, i, PrintEntry(e))
    requires sep == i + |e.pattern| && end == sep + 1 + |PrintInt(e.level)|
    requires end < |s| ==> s[end] == ','
    ensures i <= sep < |s| && end <= |s| && Segment(s, i, sep) == [e]
    ensures IndexOf(s, i, '=') == sep && IndexOf(s, sep, ',') == end
  {
    EntryParts(s, i, e, sep, end);
    IndexIs(s, i, sep, '=');
    ScanPrinted(s, sep + 1, e.level, end);
    IndexIs(s, sep, end, ',');
  }

  ghost predicate NoEquals(entries: seq<Entry>)
  {
    forall k :: 0 <= k < |entries| ==> '=' !in entries[k].pattern
  }

  // Two texts with a comma between them.
  lemma PartsAtComma(s: string, i: nat, first: string, rest: string, end: nat)
    requires HasPrefix(s, i, first + ("," + rest)) && end == i + |first|
    ensures HasPrefix(s, i, first) && end < |s| && s[end] == ',' && HasPrefix(s, end + 1, rest)
  {
    PrefixParts(s, i, first, "," + rest);
    PrefixParts(s, end, ",", rest);
  }

  // From i on the segments of s are read as these entries.
  ghost predicate Reads(s: string, i: nat, entries: seq<Entry>)
    requires entries != []
    decreases |entries|
  {
    && i <= |s|
    && var sep := IndexOf(s, i, '=');
    && sep < |s| && Segment(s, i, sep) == [entries[0]]
    && var comma := IndexOf(s, sep, ',');
    if |entries| == 1 then comma == |s| else comma < |s| && Reads(s, comma + 1, entries[1..])
  }

  lemma HeadAndRest(entries: seq<Entry>) returns (e: Entry, rest: seq<Entry>)
    requires entries != [] && NoEquals(entries)
    ensures e == entries[0] && rest == entries[1..] && '=' !in e.pattern && NoEquals(rest)
  {
    e, rest := entries[0], entries[1..];
    forall k | 0 <= k < |rest|
      ensures '=' !in rest[k].pattern
    {
      assert rest[k] == entries[k + 1];
    }
  }

  // Where the first printed entry ends, and the others behind a comma.
  lemma PrintedHead(s: string, i: nat, entries: seq<Entry>, e: Entry, rest: seq<Entry>) returns (sep: nat, end: nat)
    requires entries != [] && e == entries[0] && rest == entries[1..]
    requires HasPrefix(s, i, Print(entries)) && i + |Print(entries)| == |s|
    ensures HasPrefix(s, i, PrintEntry(e)) && sep == i + |e.pattern| && end == sep + 1 + |PrintInt(e.level)|
    ensures end < |s| ==> s[end] == ','
    ensures if rest == [] then end == |s|
            else end < |s| && HasPrefix(s, end + 1, Print(rest)) && end + 1 + |Print(rest)| == |s|
  {
    sep := i + |e.pattern|;
    end := sep + 1 + |PrintInt(e.level)|;
    if rest != [] {
      PartsAtComma(s, i, PrintEntry(e), Print(rest), end);
    }
  }

  lemma EntryThenRest(s: string, i: nat, sep: nat, end: nat, e: Entry, rest: seq<Entry>, entries: seq<Entry>)
    requires entries != [] && e == entries[0] && rest == entries[1..] && '=' !in e.pattern
    requires HasPrefix(s, i, PrintEntry(e)) && sep == i + |e.pattern| && end == sep + 1 + |PrintInt(e.level)|
    requires if rest == [] then end == |s| else end < |s| && s[end] == ',' && Reads(s, end + 1, rest)
    ensures Reads(s, i, entries)
  {
    EntryRead(s, i, e, sep, end);
  }

  lemma {:induction false} PrintReads(s: string, i: nat, entries: seq<Entry>)
    requires entries != [] && NoEquals(entries) && HasPrefix(s, i, Print(entries)) && i + |Print(entries)| == |s|
    ensures Reads(s, i, entries)
    decreases |entries|
  {
    var e, rest := HeadAndRest(entries);
    var sep, end := PrintedHead(s, i, entries, e, rest);
    if rest != [] {
      PrintReads(s, end + 1, rest);
    }
    EntryThenRest(s, i, sep, end, e, rest, entries);
  }

  lemma {:induction false} ReadsParse(s: string, i: nat, entries: seq<Entry>)
    requires entries != [] && Reads(s, i, entries)
    ensures i <= |s| && Parse(s, i) == entries
    decreases |entries|
  {
    hide IndexOf, Segment;
    if |entries| > 1 {
      ReadsParse(s, IndexOf(s, IndexOf(s, i, '='), ',') + 1, entries[1..]);
      assert [entries[0]] + entries[1..] == entries;
    }
  }

  // A printed list of overrides is read back entry by entry, in order.
  lemma FlagRoundTrip(entries: seq<Entry>)
    requires NoEquals(entries)
    ensures Parse(Print(entries), 0) == entries
  {
    if entries != [] {
      PrefixIs(Print(entries), 0, Print(entries));
      PrintReads(Print(entries), 0, entries);
      ReadsParse(Print(entries), 0, entries);
    }
  }

  // A segment whose level is no number is skipped; what follows is read as if it
  // stood alone.
  lemma BadSegmentSkipped(s: string, i: nat, sep: nat, comma: nat, k: nat, j: nat)
    requires i <= sep < comma < |s| && s[sep] == '=' && s[comma] == ','
    requires forall k :: i <= k < sep ==> s[k] != '='
    requires forall k :: sep <= k < comma ==> s[k] != ','
    requires LevelAt(s, sep + 1, k, j) && !IsDigit(At(s, j))
    ensures Parse(s, i) == Parse(s, comma + 1)
  {
    hide ScanInt, LevelAt;
    NoLevel(s, sep + 1, k, j);
    IndexIs(s, i, sep, '=');
    IndexIs(s, sep, comma, ',');
  }
}
