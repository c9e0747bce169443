// What VLOG statements do, said without any cache.
module VlogSpec {
  import opened CStrings
  import opened FnMatch
  import opened Options
  import opened VModuleFlag

  // ----- the name of a module -----------------------------------------------------------

  // Where the part of s[..n] behind its last '/' starts.
  function AfterSlash(s: string, n: nat): (k: nat)
    requires n <= |s|
    ensures k <= n && '/' !in s[k..n] && (k == 0 || s[k - 1] == '/')
  {
    if n == 0 || s[n - 1] == '/' then n else AfterSlash(s, n - 1)
  }

  predicate EndsInInl(s: string)
  {
    |s| >= 4 && s[|s| - 4..] == "-inl"
  }

  // The base name of a source file: no directory, nothing from the first '.' on, and
  // no trailing "-inl".
  function Base(fname: string): string
  {
    var start := AfterSlash(fname, |fname|);
    var stem := fname[start..IndexOf(fname, start, '.')];
    if EndsInInl(stem) then stem[..|stem| - 4] else stem
  }

  lemma {:induction false} AfterSlashIs(s: string, n: nat, k: nat)
    requires k <= n <= |s| && '/' !in s[k..n] && (k == 0 || s[k - 1] == '/')
    ensures AfterSlash(s, n) == k
    decreases n
  {
    if n > k {
      assert s[n - 1] == s[k..n][n - 1 - k];
      assert s[k..n - 1] == s[k..n][..n - 1 - k];
      AfterSlashIs(s, n - 1, k);
    }
  }

  lemma StemOf(dir: string, stem: string, ext: string, fname: string)
    requires (dir == "" || dir[|dir| - 1] == '/') && '/' !in stem && '/' !in ext && '.' !in stem
    requires (ext == "" || ext[0] == '.') && fname == dir + stem + ext
    ensures Base(fname) == if EndsInInl(stem) then stem[..|stem| - 4] else stem
  {
    hide EndsInInl, AfterSlash, IndexOf;
    var start, end := |dir|, |dir + stem|;
    assert fname[start..] == stem + ext && fname[start..end] == stem;
    AfterSlashIs(fname, |fname|, start);
    forall k | start <= k < end
      ensures fname[k] != '.'
    {
      assert fname[k] == stem[k - start];
    }
    IndexIs(fname, start, end, '.');
  }

  lemma InlStem(name: string) returns (stem: string)
    ensures stem == name + "-inl" && EndsInInl(stem) && stem[..|stem| - 4] == name
  {
    stem := name + "-inl";
    assert stem[|name|..] == "-inl";
  }

  // A module keeps its name in every directory, with every extension and with or
  // without "-inl".
  lemma BaseName(dir: string, name: string, ext: string)
    requires (dir == "" || dir[|dir| - 1] == '/') && '/' !in name && '/' !in ext && '.' !in name
    requires ext == "" || ext[0] == '.'
    ensures Base(dir + (name + "-inl") + ext) == name
    ensures !EndsInInl(name) ==> Base(dir + name + ext) == name
  {
    hide Base, EndsInInl;
    StemOf(dir, name, ext, dir + name + ext);
    var stem := InlStem(name);
    StemOf(dir, stem, ext, dir + stem + ext);
  }

  // ----- looking a module up -------------------------------------------------------------

  // The first entry whose pattern matches the name; the length if none does.
  function First(entries: seq<Entry>, name: string): (k: nat)
    ensures k <= |entries| && (k < |entries| ==> Match(entries[k].pattern, name))
    ensures forall j :: 0 <= j < k ==> !Match(entries[j].pattern, name)
  {
    if entries == [] || Match(entries[0].pattern, name) then 0
    else
      var k := First(entries[1..], name);
      assert forall j :: 1 <= j < k + 1 ==> entries[j] == entries[1..][j - 1];
      k + 1
  }

  predicate Known(entries: seq<Entry>, name: string)
  {
    First(entries, name) < |entries|
  }

  // The level of the first matching entry, or the default.
  function Lookup(entries: seq<Entry>, name: string, v: int): int
  {
    if Known(entries, name) then entries[First(entries, name)].level else v
  }

  // ----- the uncached machine ------------------------------------------------------------

  // Everything that decides whether a VLOG statement logs: --v, --vmodule, whether the
  // latter has been parsed, and the overrides.
  datatype Settings = Settings(v: int, vmodule: string, parsed: bool, entries: seq<Entry>)

  // The settings once --vmodule has been parsed.
  function Parsed(m: Settings): Settings
  {
    if m.parsed then m else m.(parsed := true, entries := Parse(m.vmodule, 0) + m.entries)
  }

  predicate IsOn(m: Settings, fname: string, level: int)
  {
    Lookup(Parsed(m).entries, Base(fname), m.v) >= level
  }

  function WithLevel(entries: seq<Entry>, pattern: string, level: int): (r: seq<Entry>)
    ensures |r| == |entries|
    ensures forall k :: 0 <= k < |entries| ==>
                          r[k] == if entries[k].pattern == pattern then Entry(pattern, level) else entries[k]
  {
    seq(|entries|, k requires 0 <= k < |entries| =>
      if entries[k].pattern == pattern then Entry(pattern, level) else entries[k])
  }

  // The settings after SetVLOGLevel.
  function Set(m: Settings, pattern: string, level: int): Settings
  {
    m.(entries := if Known(m.entries, pattern) then WithLevel(m.entries, pattern, level)
       else [Entry(pattern, level)] + m.entries)
  }

  // What SetVLOGLevel returns.
  function Was(m: Settings, pattern: string): int
  {
    Lookup(m.entries, pattern, m.v)
  }

  // ----- properties of the overrides ------------------------------------------------------

  lemma FirstIs(entries: seq<Entry>, k: nat, name: string)
    requires k <= |entries| && forall j :: 0 <= j < k ==> !Match(entries[j].pattern, name)
    requires k < |entries| ==> Match(entries[k].pattern, name)
    ensures First(entries, name) == k
  {
    var f := First(entries, name);
    if f < k {
      assert false;
    }
  }

  lemma FirstOfPrepended(e: Entry, entries: seq<Entry>, name: string)
    ensures First([e] + entries, name) == if Match(e.pattern, name) then 0 else First(entries, name) + 1
  {
    assert ([e] + entries)[1..] == entries;
  }

  lemma FirstWithLevel(entries: seq<Entry>, pattern: string, level: int, name: string)
    ensures First(WithLevel(entries, pattern, level), name) == First(entries, name)
  {
    FirstIs(WithLevel(entries, pattern, level), First(entries, name), name);
  }

  // An entry for the very pattern is one that matches it.
  lemma Unknown(entries: seq<Entry>, pattern: string)
    requires !Known(entries, pattern)
    ensures forall k :: 0 <= k < |entries| ==> entries[k].pattern != pattern
  {
    MatchReflexive(pattern);
  }

  lemma SetsNothing(entries: seq<Entry>, pattern: string, level: int)
    requires !Known(entries, pattern)
    ensures WithLevel(entries, pattern, level) == entries
  {
    Unknown(entries, pattern);
  }

  // Is the first entry that matches the name one for the very pattern?
  predicate Applies(entries: seq<Entry>, pattern: string, name: string)
  {
    Known(entries, name) && entries[First(entries, name)].pattern == pattern
  }

  // What a lookup finds after SetVLOGLevel.
  lemma WasAfterSet(m: Settings, pattern: string, level: int, name: string)
    ensures Was(Set(m, pattern, level), name) ==
            if (if Known(m.entries, pattern) then Applies(m.entries, pattern, name) else Match(pattern, name))
            then level
            else Was(m, name)
  {
    if Known(m.entries, pattern) {
      FirstWithLevel(m.entries, pattern, level, name);
    } else {
      FirstOfPrepended(Entry(pattern, level), m.entries, name);
    }
  }

  lemma AppliesAfterSet(m: Settings, pattern: string, level: int, name: string)
    ensures var after := Set(m, pattern, level).entries;
            && Known(after, pattern)
            && Applies(after, pattern, name) ==
               if Known(m.entries, pattern) then Applies(m.entries, pattern, name)
               else Match(pattern, name)
  {
    if Known(m.entries, pattern) {
      FirstWithLevel(m.entries, pattern, level, name);
      FirstWithLevel(m.entries, pattern, level, pattern);
    } else {
      Unknown(m.entries, pattern);
      MatchReflexive(pattern);
      FirstOfPrepended(Entry(pattern, level), m.entries, pattern);
      FirstOfPrepended(Entry(pattern, level), m.entries, name);
    }
  }

  // SetVLOGLevel decides the level of a module given by name, unless another pattern
  // comes first and has a different level.
  lemma SetTakesEffect(m: Settings, name: string, level: int)
    ensures Was(Set(m, name, level), name) == level <==>
            !Known(m.entries, name) || Applies(m.entries, name, name) || Was(m, name) == level
  {
    MatchReflexive(name);
    WasAfterSet(m, name, level, name);
  }

  // A setting changes nothing for a module that its pattern does not match.
  lemma SetLeavesOthers(m: Settings, pattern: string, level: int, name: string)
    requires !Match(pattern, name)
    ensures Was(Set(m, pattern, level), name) == Was(m, name)
  {
    WasAfterSet(m, pattern, level, name);
  }

  // Setting a pattern back to the level SetVLOGLevel returned restores what a lookup of a
  // name finds exactly if the pattern does not reach the name, or the name had the level of
  // the pattern taken as a name.
  lemma SetUndone(m: Settings, pattern: string, level: int, name: string)
    ensures Was(Set(Set(m, pattern, level), pattern, Was(m, pattern)), name) == Was(m, name) <==>
            || !(if Known(m.entries, pattern) then Applies(m.entries, pattern, name) else Match(pattern, name))
            || Was(m, name) == Was(m, pattern)
  {
    WasAfterSet(m, pattern, level, name);
    AppliesAfterSet(m, pattern, level, name);
    WasAfterSet(Set(m, pattern, level), pattern, Was(m, pattern), name);
  }

  // For patterns without wildcards, and for those that are themselves the first entry that
  // matches them, that is every name.
  lemma SetUndoneEverywhere(m: Settings, pattern: string, level: int, name: string)
    requires Literal(pattern) || Applies(m.entries, pattern, pattern)
    ensures Was(Set(Set(m, pattern, level), pattern, Was(m, pattern)), name) == Was(m, name)
  {
    SetUndone(m, pattern, level, name);
    if Literal(pattern) {
      LiteralMatch(pattern, name);
    } else if Applies(m.entries, pattern, name) {
      FirstsAgree(m.entries, pattern, name);
    }
  }

  // The first entry for a pattern that applies to itself is the first for all it matches.
  lemma FirstsAgree(entries: seq<Entry>, pattern: string, name: string)
    requires Applies(entries, pattern, pattern) && Applies(entries, pattern, name)
    ensures First(entries, pattern) == First(entries, name)
  {
    MatchReflexive(pattern);
    var j, k := First(entries, pattern), First(entries, name);
    assert Match(entries[k].pattern, pattern) && Match(entries[j].pattern, name);
  }

  // ----- runs -----------------------------------------------------------------------------

  // What a program does: reach the VLOG_IS_ON of a site, call SetVLOGLevel, assign
  // FLAGS_v.
  datatype Event = Reach(site: nat, level: int) | Override(pattern: string, level: int) | Assign(v: int)

  // What it gets back.
  datatype Reply = On(on: bool) | Previous(level: int) | Nothing

  ghost predicate Wellformed(events: seq<Event>, sites: nat)
  {
    forall k :: 0 <= k < |events| ==> (events[k].Reach? ==> events[k].site < sites)
  }

  function Next(m: Settings, e: Event): Settings
  {
    match e
    case Reach(_, _) => Parsed(m)
    case Override(pattern, level) => Set(m, pattern, level)
    case Assign(v) => m.(v := v)
  }

  function Answer(m: Settings, fnames: seq<string>, e: Event): Reply
    requires e.Reach? ==> e.site < |fnames|
  {
    match e
    case Reach(site, level) => On(IsOn(m, fnames[site], level))
    case Override(pattern, _) => Previous(Was(m, pattern))
    case Assign(_) => Nothing
  }

  // The settings after the first n events.
  function After(m: Settings, events: seq<Event>, n: nat): Settings
    requires n <= |events|
  {
    if n == 0 then m else Next(After(m, events, n - 1), events[n - 1])
  }

  // What the uncached machine answers to the first n events.
  function Replies(m: Settings, fnames: seq<string>, events: seq<Event>, n: nat): seq<Reply>
    requires n <= |events| && Wellformed(events, |fnames|)
  {
    if n == 0 then []
    else Replies(m, fnames, events, n - 1) + [Answer(After(m, events, n - 1), fnames, events[n - 1])]
  }

  // Was the site reached by one of the first n events, with the flag already parsed?
  predicate Reached(m: Settings, events: seq<Event>, n: nat, site: nat)
    requires n <= |events|
  {
    n > 0
    && (Reached(m, events, n - 1, site)
        || (events[n - 1].Reach? && events[n - 1].site == site && After(m, events, n - 1).parsed))
  }

  // A new pattern overtakes a site that was reached and is on an entry.
  predicate Overtakes(m: Settings, fnames: seq<string>, events: seq<Event>, n: nat, pattern: string, site: nat)
    requires n <= |events| && site < |fnames|
  {
    && Reached(m, events, n, site) && Known(After(m, events, n).entries, Base(fnames[site]))
    && Match(pattern, Base(fnames[site]))
  }

  // If the n-th event passes a pattern to SetVLOGLevel, an entry matches it already or it
  // overtakes no site.
  ghost predicate HarmlessAt(m: Settings, fnames: seq<string>, events: seq<Event>, n: nat)
    requires n < |events|
  {
    match events[n]
    case Override(pattern, _) =>
      || Known(After(m, events, n).entries, pattern)
      || forall site :: 0 <= site < |fnames| ==> !Overtakes(m, fnames, events, n, pattern, site)
    case _ => true
  }

  ghost predicate Harmless(m: Settings, fnames: seq<string>, events: seq<Event>)
  {
    forall n {:trigger HarmlessAt(m, fnames, events, n)} :: 0 <= n < |events| ==> HarmlessAt(m, fnames, events, n)
  }

  // A pattern without wildcards never overtakes: the entry that the site is on matches it.
  lemma LiteralIsHarmless(m: Settings, fnames: seq<string>, events: seq<Event>, n: nat)
    requires n < |events| && events[n].Override? && Literal(events[n].pattern)
    ensures HarmlessAt(m, fnames, events, n)
  {
    var pattern := events[n].pattern;
    forall site | 0 <= site < |fnames| && Overtakes(m, fnames, events, n, pattern, site)
      ensures Known(After(m, events, n).entries, pattern)
    {
      LiteralMatch(pattern, Base(fnames[site]));
    }
  }

  // The patterns of one list are those at the end of another.
  ghost predicate Grown(before: seq<Entry>, now: seq<Entry>)
  {
    && |before| <= |now|
    && forall k :: |now| - |before| <= k < |now| ==> now[k].pattern == before[k - (|now| - |before|)].pattern
  }

  lemma GrownTwice(a: seq<Entry>, b: seq<Entry>, c: seq<Entry>)
    requires Grown(a, b) && Grown(b, c)
    ensures Grown(a, c)
  {
  }

  lemma PrefixGrows(prefix: seq<Entry>, entries: seq<Entry>) returns (now: seq<Entry>)
    ensures now == prefix + entries && Grown(entries, now)
  {
    now := prefix + entries;
  }

  lemma ParsedGrows(m: Settings)
    ensures Grown(m.entries, Parsed(m).entries)
  {
    if !m.parsed {
      var now := PrefixGrows(Parse(m.vmodule, 0), m.entries);
      assert Parsed(m).entries == now;
    }
  }

  // Levels may change where they are.
  lemma GrownInPlace(before: seq<Entry>, now: seq<Entry>)
    requires |before| == |now| && forall k :: 0 <= k < |now| ==> now[k].pattern == before[k].pattern
    ensures Grown(before, now)
  {
  }

  lemma SetGrows(m: Settings, pattern: string, level: int)
    ensures Grown(m.entries, Set(m, pattern, level).entries)
  {
    hide First, Match, WithLevel, Grown;
    if !Known(m.entries, pattern) {
      var now := PrefixGrows([Entry(pattern, level)], m.entries);
      assert Set(m, pattern, level).entries == now;
    } else {
      GrownInPlace(m.entries, WithLevel(m.entries, pattern, level));
    }
  }

  lemma StepGrows(m: Settings, e: Event)
    ensures Grown(m.entries, Next(m, e).entries)
  {
    match e
    case Reach(_, _) => ParsedGrows(m);
    case Override(pattern, level) => SetGrows(m, pattern, level);
    case Assign(_) =>
  }

  // Over any run the overrides only grow at the front: the patterns of each list end in
  // those of every earlier one.
  lemma {:induction false} PatternsOnlyGrow(m: Settings, events: seq<Event>, i: nat, n: nat)
    requires i <= n <= |events|
    ensures Grown(After(m, events, i).entries, After(m, events, n).entries)
    decreases n
  {
    if i < n {
      PatternsOnlyGrow(m, events, i, n - 1);
      StepGrows(After(m, events, n - 1), events[n - 1]);
      GrownTwice(After(m, events, i).entries, After(m, events, n - 1).entries, After(m, events, n).entries);
    }
  }
}
