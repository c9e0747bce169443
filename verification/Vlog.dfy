// --vmodule and SetVLOGLevel: the list of overrides and the sites that cache a pointer
// into it.
module Vlog {
  import opened CStrings
  import opened FnMatch
  import opened Options
  import opened VModuleFlag
  import opened VlogSpec

  class VModuleInfo {
    const modulePattern: string
    var vlogLevel: int
    var next: VModuleInfo?

    constructor (pattern: string, level: int, next: VModuleInfo?)
      ensures modulePattern == pattern && vlogLevel == level && this.next == next
    {
      modulePattern, vlogLevel, this.next := pattern, level, next;
    }
  }

  // A pointer to the integer that controls a site: null, &FLAGS_v or &info->vlog_level.
  datatype LevelPtr = NoLevel | Default | InfoLevel(info: VModuleInfo)

  // The static of one VLOG_IS_ON in the file fname.
  class SiteFlag {
    const fname: string
    ghost const moduleName: string  // its base name
    var level: LevelPtr
    var baseName: Option<string>
    var next: SiteFlag?

    constructor (fname: string)
      ensures this.fname == fname && moduleName == Base(fname)
      ensures level == NoLevel && baseName == None && next == null
    {
      this.fname, moduleName, level, baseName, next := fname, Base(fname), NoLevel, None, null;
    }
  }

  function InfoAt(s: seq<VModuleInfo>, k: nat, end: VModuleInfo?): VModuleInfo?
  {
    if k < |s| then s[k] else end
  }

  // From head these nodes lead to end.
  ghost predicate InfoPath(head: VModuleInfo?, s: seq<VModuleInfo>, end: VModuleInfo?)
    reads s
  {
    && head == InfoAt(s, 0, end)
    && (forall k {:trigger s[k]} :: 0 <= k < |s| ==> s[k].next == InfoAt(s, k + 1, end))
  }

  function SiteAt(s: seq<SiteFlag>, k: nat, end: SiteFlag?): SiteFlag?
  {
    if k < |s| then s[k] else end
  }

  lemma SiteIs(s: seq<SiteFlag>, k: nat, site: SiteFlag)
    requires site == SiteAt(s, k, null)
    ensures k < |s| && s[k] == site
  {
  }

  function Last(s: seq<SiteFlag>): SiteFlag?
  {
    if s == [] then null else s[|s| - 1]
  }

  ghost predicate SitePath(head: SiteFlag?, s: seq<SiteFlag>, end: SiteFlag?)
    reads s
  {
    && head == SiteAt(s, 0, end)
    && (forall k {:trigger s[k]} :: 0 <= k < |s| ==> s[k].next == SiteAt(s, k + 1, end))
  }

  // A path out of its nodes meets no node twice.
  lemma {:induction false} InfosDistinct(s: seq<VModuleInfo>, j: nat, k: nat, head: VModuleInfo?, end: VModuleInfo?)
    requires InfoPath(head, s, end) && end !in s && j < k < |s|
    ensures s[j] != s[k]
    decreases |s| - k
  {
    if k + 1 < |s| {
      InfosDistinct(s, j + 1, k + 1, head, end);
    }
  }

  lemma {:induction false} SitesDistinct(s: seq<SiteFlag>, j: nat, k: nat, head: SiteFlag?, end: SiteFlag?)
    requires SitePath(head, s, end) && end !in s && j < k < |s|
    ensures s[j] != s[k]
    decreases |s| - k
  {
    if k + 1 < |s| {
      SitesDistinct(s, j + 1, k + 1, head, end);
    }
  }

  // The nodes hold these entries.
  ghost predicate Hold(s: seq<VModuleInfo>, entries: seq<Entry>)
    reads s
  {
    && |s| == |entries|
    && forall k :: 0 <= k < |s| ==> s[k].modulePattern == entries[k].pattern && s[k].vlogLevel == entries[k].level
  }

  // Is the list now the one before with something in front?
  ghost predicate Grew(before: seq<VModuleInfo>, now: seq<VModuleInfo>)
  {
    |before| <= |now| && now[|now| - |before|..] == before
  }

  lemma GrewBy(news: seq<VModuleInfo>, before: seq<VModuleInfo>, now: seq<VModuleInfo>)
    requires now == news + before
    ensures Grew(before, now)
  {
  }

  // A list under construction.
  ghost predicate Building(head: VModuleInfo?, tail: VModuleInfo?, s: seq<VModuleInfo>, entries: seq<Entry>)
    reads s
  {
    && InfoPath(head, s, null) && Hold(s, entries)
    && tail == if s == [] then null else s[|s| - 1]
  }

  ghost predicate Within(s: seq<VModuleInfo>, nodes: set<VModuleInfo>)
  {
    forall k :: 0 <= k < |s| ==> s[k] in nodes
  }

  method PushBack(head: VModuleInfo?, tail: VModuleInfo?, info: VModuleInfo,
                  ghost s: seq<VModuleInfo>, ghost entries: seq<Entry>)
    returns (head': VModuleInfo, tail': VModuleInfo)
    requires Building(head, tail, s, entries) && info !in s && info.next == null
    modifies tail
    ensures tail' == info
    ensures Building(head', tail', s + [info], entries + [Entry(info.modulePattern, info.vlogLevel)])
  {
    if head != null {
      forall k | 0 <= k < |s| - 1
        ensures s[k] != tail
      {
        InfosDistinct(s, k, |s| - 1, head, null);
      }
      tail.next := info;
      head' := head;
    } else {
      head' := info;
    }
    tail' := info;
  }

  // Those of the first k sites whose base name the pattern does not match, in order.
  ghost function Unmatched(s: seq<SiteFlag>, k: nat, pattern: string): seq<SiteFlag>
    requires k <= |s|
  {
    if k == 0 then []
    else Unmatched(s, k - 1, pattern) + if Match(pattern, s[k - 1].moduleName) then [] else [s[k - 1]]
  }

  lemma UnmatchedSoFar(s: seq<SiteFlag>, k: nat, pattern: string)
    requires k < |s|
    ensures var before := Unmatched(s, k, pattern);
            Unmatched(s, k + 1, pattern) == if Match(pattern, s[k].moduleName) then before else before + [s[k]]
  {
  }

  lemma {:induction false} NotBefore(s: seq<SiteFlag>, k: nat, pattern: string, site: SiteFlag)
    requires k <= |s| && forall j :: 0 <= j < k ==> s[j] != site
    ensures site !in Unmatched(s, k, pattern)
  {
    if k > 0 {
      NotBefore(s, k - 1, pattern, site);
    }
  }

  lemma {:induction false} InUnmatched(s: seq<SiteFlag>, k: nat, pattern: string, site: SiteFlag)
    requires k <= |s|
    ensures site in Unmatched(s, k, pattern) <==> site in s[..k] && !Match(pattern, site.moduleName)
  {
    if k > 0 {
      InUnmatched(s, k - 1, pattern, site);
      assert s[..k] == s[..k - 1] + [s[k - 1]];
    }
  }

  lemma Regroup(a: seq<Entry>, b: seq<Entry>, c: seq<Entry>)
    ensures a + (b + c) == a + b + c
  {
  }

  // What has been parsed, followed by what has not, is what there is.
  ghost predicate Halfway(s: string, i: nat, done: seq<Entry>, all: seq<Entry>)
  {
    i <= |s| && all == done + Parse(s, i)
  }

  // One more segment parsed.
  lemma Advance(s: string, i: nat, sep: nat, comma: nat, done: seq<Entry>, more: seq<Entry>, all: seq<Entry>)
    requires i <= sep < |s| && sep == IndexOf(s, i, '=') && comma == IndexOf(s, sep, ',')
    requires Halfway(s, i, done, all) && more == Segment(s, i, sep)
    ensures if comma == |s| then all == done + more else Halfway(s, comma + 1, done + more, all)
  {
    hide Segment, IndexOf;
    if comma < |s| {
      Regroup(done, more, Parse(s, comma + 1));
    }
  }

  lemma Finished(s: string, i: nat, done: seq<Entry>, all: seq<Entry>)
    requires Halfway(s, i, done, all) && IndexOf(s, i, '=') == |s|
    ensures all == done
  {
  }

  // Appends the entry of one segment of the flag, if its level is a number.
  method PushSegment(s: string, i: nat, sep: nat, head: VModuleInfo?, tail: VModuleInfo?,
                     ghost news: seq<VModuleInfo>, ghost done: seq<Entry>)
    returns (head': VModuleInfo?, tail': VModuleInfo?, ghost news': seq<VModuleInfo>, ghost more: seq<Entry>)
    requires i <= sep < |s| && Building(head, tail, news, done)
    modifies tail
    ensures more == Segment(s, i, sep) && Building(head', tail', news', done + more)
    ensures news' == news || (tail' != null && fresh(tail') && news' == news + [tail'])
  {
    head', tail', news', more := head, tail, news, [];
    var moduleLevel := ScanInt(s, sep + 1);
    if moduleLevel.Some? {
      var info := new VModuleInfo(s[i..sep], moduleLevel.value, null);
      more := [Entry(s[i..sep], moduleLevel.value)];
      head', tail' := PushBack(head, tail, info, news, done);
      news' := news + [info];
    } else {
      assert done + [] == done;
    }
  }

  lemma Joined(head: VModuleInfo?, a: seq<VModuleInfo>, mid: VModuleInfo?, b: seq<VModuleInfo>,
               es: seq<Entry>, fs: seq<Entry>)
    requires InfoPath(head, a, mid) && InfoPath(mid, b, null) && Hold(a, es) && Hold(b, fs)
    ensures InfoPath(head, a + b, null) && Hold(a + b, es + fs)
  {
  }

  // Puts a list at the head of another.
  method Splice(head: VModuleInfo?, tail: VModuleInfo?, list: VModuleInfo?,
                ghost news: seq<VModuleInfo>, ghost parsed: seq<Entry>,
                ghost infos: seq<VModuleInfo>, ghost entries: seq<Entry>,
                ghost allInfos: seq<VModuleInfo>, ghost allEntries: seq<Entry>)
    returns (list': VModuleInfo?)
    requires allInfos == news + infos && allEntries == parsed + entries
    requires Building(head, tail, news, parsed) && InfoPath(list, infos, null) && Hold(infos, entries)
    requires tail == null || tail !in infos
    modifies tail
    ensures InfoPath(list', allInfos, null) && Hold(allInfos, allEntries)
  {
    if head != null {
      forall k | 0 <= k < |news| - 1
        ensures news[k] != tail
      {
        InfosDistinct(news, k, |news| - 1, head, null);
      }
      tail.next := list;
      Joined(head, news, list, infos, parsed, entries);
      return head;
    } else {
      assert news + infos == infos && parsed + entries == entries;
      return list;
    }
  }

  // The flag read up to position i, with its next '=' at sep.
  ghost predicate Reading(s: string, i: nat, sep: nat, done: seq<Entry>, all: seq<Entry>)
  {
    i <= sep <= |s| && if sep == |s| then all == done else sep == IndexOf(s, i, '=') && Halfway(s, i, done, all)
  }

  lemma StartReading(s: string, sep: nat) returns (all: seq<Entry>)
    requires sep == IndexOf(s, 0, '=')
    ensures all == Parse(s, 0) && Reading(s, 0, sep, [], all)
  {
    all := Parse(s, 0);
  }

  method ParseSegment(s: string, i: nat, sep: nat, head: VModuleInfo?, tail: VModuleInfo?,
                     ghost news: seq<VModuleInfo>, ghost made: set<VModuleInfo>,
                     ghost done: seq<Entry>, ghost all: seq<Entry>)
    returns (i': nat, sep': nat, head': VModuleInfo?, tail': VModuleInfo?,
             ghost news': seq<VModuleInfo>, ghost made': set<VModuleInfo>, ghost done': seq<Entry>)
    requires Reading(s, i, sep, done, all) && sep < |s| && Building(head, tail, news, done) && Within(news, made)
    modifies tail
    ensures Building(head', tail', news', done') && Within(news', made') && fresh(made' - made)
    ensures Reading(s, i', sep', done', all) && i < i'
  {
    var comma := IndexOf(s, sep, ',');
    ghost var more;
    head', tail', news', more := PushSegment(s, i, sep, head, tail, news, done);
    made' := if news' == news then made else made + {tail'};
    done' := done + more;
    Advance(s, i, sep, comma, done, more, all);
    i', sep' := |s|, |s|;
    if comma < |s| {
      i' := comma + 1;
      sep' := IndexOf(s, i', '=');
      if sep' == |s| {
        Finished(s, i', done', all);
      }
    }
  }

  // Parses the flag into a list of its own.
  method ParseFlag(s: string)
    returns (head: VModuleInfo?, tail: VModuleInfo?,
             ghost news: seq<VModuleInfo>, ghost made: set<VModuleInfo>, ghost done: seq<Entry>)
    ensures Building(head, tail, news, done) && Within(news, made) && fresh(made) && done == Parse(s, 0)
  {
    head, tail, news, made, done := null, null, [], {}, [];
    var vmodule := 0;
    var sep := IndexOf(s, vmodule, '=');
    ghost var all := StartReading(s, sep);
    while sep != |s|
      invariant Reading(s, vmodule, sep, done, all) && Building(head, tail, news, done)
      invariant Within(news, made) && fresh(made)
      decreases |s| - vmodule
    {
      vmodule, sep, head, tail, news, made, done := ParseSegment(s, vmodule, sep, head, tail, news, made, done, all);
    }
  }

  // A site's pointer leads to the default exactly while the site is listed, and that
  // exactly while no override matches its name; otherwise it leads to one that does.
  ghost predicate Consistent(level: LevelPtr, baseName: Option<string>, name: string, listed: bool,
                             inited: bool, entries: seq<Entry>, infos: seq<VModuleInfo>)
  {
    && (baseName == None || baseName == Some(name))
    && match level
       case NoLevel => baseName == None && !listed
       case Default => inited && baseName == Some(name) && listed && !Known(entries, name)
       case InfoLevel(info) =>
         inited && !listed && Known(entries, name) && info in infos && Match(info.modulePattern, name)
  }

  // Does the pointer lead to what a lookup finds?  A null pointer does.
  ghost predicate LeadsToFirst(level: LevelPtr, name: string, entries: seq<Entry>, infos: seq<VModuleInfo>)
  {
    level.InfoLevel? ==>
      var k := First(entries, name);
      k < |infos| && infos[k] == level.info
  }

  // One site before and after an override that matched nothing so far is put in front.
  lemma SiteAfterPrepend(level: LevelPtr, baseName: Option<string>, name: string, listed: bool, inited: bool,
                         entries: seq<Entry>, infos: seq<VModuleInfo>, e: Entry, info: VModuleInfo)
    requires Consistent(level, baseName, name, listed, inited, entries, infos)
    requires |entries| == |infos| && e.pattern == info.modulePattern && info !in infos
    ensures var hit := Match(e.pattern, name);
      var level' := if listed && hit then InfoLevel(info) else level;
      && Consistent(level', baseName, name, listed && !hit, inited, [e] + entries, [info] + infos)
      && (LeadsToFirst(level, name, entries, infos) ==>
            (LeadsToFirst(level', name, [e] + entries, [info] + infos) <==> !(level.InfoLevel? && hit)))
  {
    FirstOfPrepended(e, entries, name);
  }

  // A site has a cached pointer only if it was reached with the flag parsed.
  ghost predicate Tracked(here: seq<SiteFlag>, start: Settings, events: seq<Event>, n: nat)
    requires n <= |events|
    reads here
  {
    forall j :: 0 <= j < |here| && here[j].level != NoLevel ==> Reached(start, events, n, j)
  }

  lemma NothingTracked(here: seq<SiteFlag>, start: Settings, events: seq<Event>)
    requires forall k :: 0 <= k < |here| ==> here[k].level == NoLevel
    ensures Tracked(here, start, events, 0)
  {
  }

  class Vlog {
    var flagsV: int
    var flagsVmodule: string
    var vmoduleList: VModuleInfo?
    var cachedSiteList: SiteFlag?
    var initedVmodule: bool

    ghost var infos: seq<VModuleInfo>  // the nodes of vmoduleList
    ghost var entries: seq<Entry>      // and what they hold
    ghost var nodes: set<VModuleInfo>  // the same nodes, as a set
    ghost var cached: seq<SiteFlag>    // the nodes of cachedSiteList
    ghost var sites: set<SiteFlag>     // all sites

    ghost function Now(): Settings
      reads this
    {
      Settings(flagsV, flagsVmodule, initedVmodule, entries)
    }

    ghost predicate Overrides()
      reads this, infos
    {
      InfoPath(vmoduleList, infos, null) && Hold(infos, entries)
    }

    ghost predicate Owned()
      reads this
    {
      Within(infos, nodes)
    }

    ghost predicate SiteOk(site: SiteFlag)
      reads this, site
    {
      && site.moduleName == Base(site.fname)
      && Consistent(site.level, site.baseName, site.moduleName, site in cached, initedVmodule, entries, infos)
    }

    ghost predicate Valid()
      reads this, infos, cached, sites
    {
      && Overrides() && Owned()
      && SitePath(cachedSiteList, cached, null)
      && (forall site :: site in cached ==> site in sites)
      && (forall site :: site in sites ==> SiteOk(site))
    }

    // Is the site not yet controlled, or controlled by what a lookup finds?
    ghost predicate Follows(site: SiteFlag)
      reads this, site
    {
      LeadsToFirst(site.level, site.moduleName, entries, infos)
    }

    constructor (v: int, vmodule: string)
      ensures Valid() && AllFollow() && Now() == Settings(v, vmodule, false, [])
      ensures nodes == {} && sites == {}
    {
      flagsV, flagsVmodule, vmoduleList, cachedSiteList, initedVmodule := v, vmodule, null, null, false;
      infos, entries, nodes, cached, sites := [], [], {}, [], {};
    }

    // A VLOG_IS_ON in the file fname, not yet reached.
    method NewSite(fname: string) returns (site: SiteFlag)
      requires Valid()
      modifies this`sites
      ensures Valid() && fresh(site) && site.fname == fname && site.level == NoLevel
      ensures sites == old(sites) + {site} && (old(AllFollow()) ==> AllFollow())
    {
      hide First, Match, Base;
      site := new SiteFlag(fname);
      sites := sites + {site};
    }

    // Puts a parsed list at the head of the overrides.
    method Install(head: VModuleInfo?, tail: VModuleInfo?, ghost news: seq<VModuleInfo>, ghost made: set<VModuleInfo>,
                   ghost parsed: seq<Entry>)
      requires Overrides() && Owned() && Building(head, tail, news, parsed) && Within(news, made) && made !! nodes
      modifies `vmoduleList, `infos, `entries, `nodes, tail
      ensures Overrides() && Owned() && entries == parsed + old(entries)
      ensures Grew(old(infos), infos) && nodes == old(nodes) + made
    {
      hide InfoPath, Hold;
      ghost var allInfos, allEntries := news + infos, parsed + entries;
      GrewBy(news, infos, allInfos);
      vmoduleList := Splice(head, tail, vmoduleList, news, parsed, infos, entries, allInfos, allEntries);
      infos, entries, nodes := allInfos, allEntries, nodes + made;
    }

    // Parses --vmodule and puts its entries in front of the list.
    method VLOG2Initializer()
      requires Overrides() && Owned() && !initedVmodule
      modifies `vmoduleList, `initedVmodule, `infos, `entries, `nodes
      ensures Overrides() && Owned() && Now() == Parsed(old(Now()))
      ensures Grew(old(infos), infos) && fresh(nodes - old(nodes))
    {
      var head, tail;
      ghost var news, made, parsed;
      head, tail, news, made, parsed := ParseFlag(flagsVmodule);
      Install(head, tail, news, made, parsed);
      initedVmodule := true;
    }

    // The entries es with those among the first k that are for the pattern set.
    ghost static predicate Partly(es: seq<Entry>, now: seq<Entry>, k: nat, pattern: string, level: int)
    {
      && |now| == |es|
      && forall j :: 0 <= j < |es| ==>
           now[j] == if j < k && es[j].pattern == pattern then Entry(pattern, level) else es[j]
    }

    static lemma PartlyStep(es: seq<Entry>, now: seq<Entry>, k: nat, pattern: string, level: int)
      requires Partly(es, now, k, pattern, level) && k < |es|
      ensures now[k] == es[k]
      ensures Partly(es, if es[k].pattern == pattern then now[k := Entry(es[k].pattern, level)] else now, k + 1,
                     pattern, level)
    {
    }

    // What has been read after k entries.
    ghost predicate Seen(es: seq<Entry>, pattern: string, k: nat, result: int, found: bool)
      reads this
    {
      var f := First(es, pattern);
      found == (f < k) && result == if found && f < |es| then es[f].level else flagsV
    }

    static lemma SeesFirst(es: seq<Entry>, pattern: string, k: nat)
      requires k < |es| && First(es, pattern) >= k
      ensures First(es, pattern) == k <==> Match(es[k].pattern, pattern)
      ensures es[k].pattern == pattern ==> First(es, pattern) == k
    {
      MatchReflexive(pattern);
    }

    // Writes the level of one node.
    method SetOne(info: VModuleInfo, level: int, ghost k: nat)
      requires Overrides() && k < |infos| && infos[k] == info
      modifies `entries, info`vlogLevel
      ensures Hold(infos, entries)
      ensures entries == old(entries)[k := Entry(old(entries)[k].pattern, level)]
    {
      forall j | 0 <= j < |infos| && j != k
        ensures infos[j] != info
      {
        InfosDistinct(infos, if j < k then j else k, if j < k then k else j, vmoduleList, null);
      }
      info.vlogLevel := level;
      entries := entries[k := Entry(entries[k].pattern, level)];
    }

    // One turn of the loop over the overrides.
    method VisitInfo(info: VModuleInfo, pattern: string, level: int, result: int, found: bool,
                     ghost k: nat, ghost es: seq<Entry>)
      returns (result': int, found': bool)
      requires Overrides() && k < |infos| && infos[k] == info
      requires Partly(es, entries, k, pattern, level) && Seen(es, pattern, k, result, found)
      modifies `entries, info`vlogLevel
      ensures Overrides() && Partly(es, entries, k + 1, pattern, level) && Seen(es, pattern, k + 1, result', found')
    {
      result', found' := result, found;
      PartlyStep(es, entries, k, pattern, level);
      if !found {
        SeesFirst(es, pattern, k);
      }
      if info.modulePattern == pattern {
        if !found {
          result', found' := info.vlogLevel, true;
        }
        SetOne(info, level, k);
      } else if !found {
        var matched := SafeFNMatch(info.modulePattern, pattern);
        if matched {
          result', found' := info.vlogLevel, true;
        }
      }
    }

    // The first half of SetVLOGLevel: reads the level that applies to the pattern taken
    // as a module name, and sets the entries for the very pattern.
    method SetExisting(pattern: string, level: int) returns (result: int, found: bool)
      requires Overrides()
      modifies `entries, infos
      ensures Overrides() && entries == WithLevel(old(entries), pattern, level)
      ensures found == Known(old(entries), pattern) && result == Lookup(old(entries), pattern, flagsV)
    {
      result, found := flagsV, false;
      ghost var es := entries;
      var info := vmoduleList;
      ghost var k := 0;
      while info != null
        invariant k <= |infos| && info == InfoAt(infos, k, null)
        invariant Overrides() && Partly(es, entries, k, pattern, level) && Seen(es, pattern, k, result, found)
        decreases |infos| - k
      {
        result, found := VisitInfo(info, pattern, level, result, found, k, es);
        info, k := info.next, k + 1;
      }
    }

    // Where item_ptr leads: it is &cached_site_list or the next of a site.
    function Target(prev: SiteFlag?): SiteFlag?
      reads this, prev
    {
      if prev == null then cachedSiteList else prev.next
    }

    // *item_ptr = next, where item_ptr is the link behind the nodes kept so far.
    method Link(prev: SiteFlag?, ghost item: SiteFlag?, next: SiteFlag?, ghost kept: seq<SiteFlag>)
      requires SitePath(cachedSiteList, kept, item) && item !in kept && prev == Last(kept)
      modifies `cachedSiteList, (if prev == null then {} else {prev})`next
      ensures SitePath(cachedSiteList, kept, next)
    {
      forall k | 0 <= k < |kept| - 1
        ensures kept[k] != prev
      {
        SitesDistinct(kept, k, |kept| - 1, cachedSiteList, item);
      }
      if prev == null {
        cachedSiteList := next;
      } else {
        prev.next := next;
      }
    }

    // One turn of the loop over the cached sites.
    method Visit(info: VModuleInfo, prev: SiteFlag?, item: SiteFlag, ghost kept: seq<SiteFlag>)
      returns (prev': SiteFlag?, item': SiteFlag?, ghost kept': seq<SiteFlag>)
      requires SitePath(cachedSiteList, kept, item) && item !in kept
      requires prev == Last(kept) && item.baseName == Some(item.moduleName)
      modifies `cachedSiteList, item`level, (if prev == null then {} else {prev})`next
      ensures item.next == old(item.next) == item' && SitePath(cachedSiteList, kept', item') && prev' == Last(kept')
      ensures var hit := Match(info.modulePattern, item.moduleName);
        && kept' == (if hit then kept else kept + [item]) && prev' == (if hit then prev else item)
        && item.level == (if hit then InfoLevel(info) else old(item.level))
    {
      var matched := SafeFNMatch(info.modulePattern, item.baseName.value);
      if matched {
        item.level := InfoLevel(info);
        Link(prev, item, item.next, kept);
        prev', kept' := prev, kept;
      } else {
        prev', kept' := item, kept + [item];
      }
      item' := Target(prev');
    }

    // The state of that loop after k of the sites: kept are those not matched, prev is the
    // last of them and p its index.
    ghost predicate Visiting(all: seq<SiteFlag>, levels: seq<LevelPtr>, info: VModuleInfo, k: nat,
                             kept: seq<SiteFlag>, p: nat, prev: SiteFlag?, item: SiteFlag?)
      reads this, all, kept
    {
      && k <= |all| == |levels| && kept == Unmatched(all, k, info.modulePattern)
      && item == SiteAt(all, k, null) && prev == Last(kept) && (prev == null || (p < k && prev == all[p]))
      && SitePath(cachedSiteList, kept, item)
      && (forall m :: 0 <= m < |all| ==>
            all[m].level ==
            if m < k && Match(info.modulePattern, all[m].moduleName) then InfoLevel(info) else levels[m])
      && (forall m {:trigger all[m]} :: k <= m < |all| ==>
            all[m].next == SiteAt(all, m + 1, null) && all[m].baseName == Some(all[m].moduleName))
    }

    method VisitNext(info: VModuleInfo, prev: SiteFlag?, item: SiteFlag,
                     ghost k: nat, ghost p: nat, ghost kept: seq<SiteFlag>,
                     ghost all: seq<SiteFlag>, ghost levels: seq<LevelPtr>)
      returns (prev': SiteFlag?, item': SiteFlag?, ghost kept': seq<SiteFlag>, ghost p': nat)
      requires Visiting(all, levels, info, k, kept, p, prev, item)
      requires forall j, k :: 0 <= j < k < |all| ==> all[j] != all[k]
      modifies `cachedSiteList, all`next, all`level
      ensures Visiting(all, levels, info, k + 1, kept', p', prev', item')
    {
      hide Match, SitePath, Unmatched, Last, SiteAt;
      SiteIs(all, k, item);
      UnmatchedSoFar(all, k, info.modulePattern);
      NotBefore(all, k, info.modulePattern, item);
      prev', item', kept' := Visit(info, prev, item, kept);
      p' := if prev' == item then k else p;
    }

    // The levels of the listed sites, and the state before the first turn of the loop.
    lemma Levels(info: VModuleInfo) returns (levels: seq<LevelPtr>)
      requires SitePath(cachedSiteList, cached, null)
      requires forall k :: 0 <= k < |cached| ==> cached[k].baseName == Some(cached[k].moduleName)
      ensures |levels| == |cached| && forall k :: 0 <= k < |cached| ==> levels[k] == cached[k].level
      ensures Visiting(cached, levels, info, 0, [], 0, null, cachedSiteList)
    {
      levels := seq(|cached|, k requires 0 <= k < |cached| reads this, cached => cached[k].level);
    }

    // The second half of SetVLOGLevel: the cached sites that the new pattern matches are
    // led to its node and leave the list.
    method Redirect(info: VModuleInfo)
      requires SitePath(cachedSiteList, cached, null)
      requires forall k :: 0 <= k < |cached| ==> cached[k].baseName == Some(cached[k].moduleName)
      modifies `cachedSiteList, `cached, cached`next, cached`level
      ensures SitePath(cachedSiteList, cached, null)
      ensures cached == Unmatched(old(cached), |old(cached)|, info.modulePattern)
      ensures forall k :: 0 <= k < |old(cached)| ==> var site := old(cached)[k];
        site.level == if Match(info.modulePattern, site.moduleName) then InfoLevel(info) else old(site.level)
    {
      hide Match, Unmatched, SitePath, Last;
      ghost var all := cached;
      ghost var levels := Levels(info);
      forall j, k | 0 <= j < k < |all|
        ensures all[j] != all[k]
      {
        SitesDistinct(all, j, k, cachedSiteList, null);
      }
      var prev: SiteFlag? := null;
      var item := cachedSiteList;
      ghost var k: nat, p: nat, kept: seq<SiteFlag> := 0, 0, [];
      while item != null
        invariant Visiting(all, levels, info, k, kept, p, prev, item)
        decreases |all| - k
      {
        prev, item, kept, p := VisitNext(info, prev, item, k, p, kept, all, levels);
        k := k + 1;
      }
      cached := kept;
    }

    // A node for the pattern, in front of the list.
    method Prepend(pattern: string, level: int) returns (info: VModuleInfo)
      requires Overrides()
      modifies `vmoduleList, `infos, `entries, `nodes
      ensures nodes == old(nodes) + {info}
      ensures Overrides()
      ensures fresh(info) && info.modulePattern == pattern
      ensures infos == [info] + old(infos) && entries == [Entry(pattern, level)] + old(entries)
    {
      info := new VModuleInfo(pattern, level, vmoduleList);
      vmoduleList := info;
      infos, entries, nodes := [info] + infos, [Entry(pattern, level)] + entries, nodes + {info};
    }

    // *p for a pointer that is not null.
    function Deref(p: LevelPtr): int
      requires p != NoLevel
      reads this, if p.InfoLevel? then {p.info} else {}
    {
      if p == Default then flagsV else p.info.vlogLevel
    }

    // The pointer to the level of the first override that matches, else to FLAGS_v.
    method FindInfo(base: string) returns (p: LevelPtr)
      requires Overrides()
      ensures p == if Known(entries, base) then InfoLevel(infos[First(entries, base)]) else Default
      ensures Deref(p) == Lookup(entries, base, flagsV)
    {
      hide First, Match;
      var info := vmoduleList;
      ghost var k := 0;
      while info != null
        invariant k <= |infos| && info == InfoAt(infos, k, null) && First(entries, base) >= k
        decreases |infos| - k
      {
        SeesFirst(entries, base, k);
        var matched := SafeFNMatch(info.modulePattern, base);
        if matched {
          return InfoLevel(info);
        }
        info, k := info.next, k + 1;
      }
      return Default;
    }

    method InitVLOG3(site: SiteFlag, verboseLevel: int) returns (on: bool)
      requires Valid() && site in sites
      modifies this, site
      ensures Valid() && Now() == Parsed(old(Now())) && sites == old(sites)
      ensures on == IsOn(old(Now()), site.fname, verboseLevel)
      ensures old(initedVmodule) ==> site.level != NoLevel && Follows(site) && infos == old(infos)
      ensures !old(initedVmodule) ==> site.level == NoLevel
      ensures Grew(old(infos), infos) && fresh(nodes - old(nodes))
    {
      hide First, Match, Base, Lookup, Parse, SitePath, InfoPath;
      var readVmoduleFlag := initedVmodule;
      if !readVmoduleFlag {
        VLOG2Initializer();
      }
      var base := Base(site.fname);
      var siteFlagValue := FindInfo(base);
      if readVmoduleFlag {
        Cache(site, base, siteFlagValue);
      }
      return Deref(siteFlagValue) >= verboseLevel;
    }

    // Puts the site in front of the list of cached sites.
    method ListSite(site: SiteFlag, base: string)
      requires SitePath(cachedSiteList, cached, null) && site !in cached
      modifies `cachedSiteList, `cached, site`baseName, site`next
      ensures SitePath(cachedSiteList, cached, null) && site.baseName == Some(base)
      ensures cached == [site] + old(cached)
      ensures forall s :: s in cached <==> s == site || s in old(cached)
    {
      site.baseName := Some(base);
      site.next := cachedSiteList;
      cachedSiteList := site;
      cached := [site] + cached;
    }

    // Caches what a lookup found; a site led to the default is listed, once.
    method Cache(site: SiteFlag, base: string, p: LevelPtr)
      requires Valid() && initedVmodule && site in sites && base == site.moduleName
      requires p == if Known(entries, base) then InfoLevel(infos[First(entries, base)]) else Default
      modifies `cachedSiteList, `cached, site
      ensures Valid() && site.level == p
    {
      hide First, Match, Base;
      site.level := p;
      if p == Default && site.baseName == None {
        ListSite(site, base);
      }
    }

    // VLOG_IS_ON at a site: the cached pointer if there is one.
    method VlogIsOn(site: SiteFlag, verboseLevel: int) returns (on: bool)
      requires Valid() && site in sites
      modifies this, site
      ensures Valid() && Now() == Parsed(old(Now())) && sites == old(sites)
      ensures Grew(old(infos), infos) && fresh(nodes - old(nodes))
      ensures old(Follows(site)) ==> Follows(site) && on == IsOn(old(Now()), site.fname, verboseLevel)
      ensures old(site.level) != NoLevel ==> site.level == old(site.level) && on == (Deref(site.level) >= verboseLevel)
      ensures old(initedVmodule) ==> site.level != NoLevel
      ensures !old(initedVmodule) ==> site.level == old(site.level)
      ensures forall s :: s in sites && s != site && old(Follows(s)) ==> Follows(s)
    {
      if site.level == NoLevel {
        on := InitVLOG3(site, verboseLevel);
      } else {
        on := Deref(site.level) >= verboseLevel;
      }
    }

    // A new node, and the cached sites it matches led to it.
    method PrependAndRedirect(pattern: string, level: int)
      requires Valid()
      modifies `vmoduleList, `infos, `entries, `nodes, `cachedSiteList, `cached, cached`next, cached`level
      ensures Overrides() && Owned() && SitePath(cachedSiteList, cached, null)
      ensures cached == Unmatched(old(cached), |old(cached)|, pattern)
      ensures |infos| > 0 && infos == [infos[0]] + old(infos) && infos[0].modulePattern == pattern
      ensures fresh(infos[0]) && fresh(nodes - old(nodes))
      ensures entries == [Entry(pattern, level)] + old(entries)
      ensures forall s :: s in sites ==>
        s.level == if s in old(cached) && Match(pattern, s.moduleName) then InfoLevel(infos[0]) else old(s.level)
    {
      hide First, Match, Hold, InfoPath, SitePath, Unmatched;
      forall k | 0 <= k < |cached|
        ensures cached[k].baseName == Some(cached[k].moduleName)
      {
        assert cached[k] in cached;
      }
      var info := Prepend(pattern, level);
      Redirect(info);
    }

    // SetVLOGLevel for a pattern that no override matches yet.
    method AddOverride(pattern: string, level: int)
      requires Valid() && !Known(entries, pattern)
      modifies `vmoduleList, `infos, `entries, `nodes, `cachedSiteList, `cached, cached`next, cached`level
      ensures Valid() && Now() == Set(old(Now()), pattern, level)
      ensures Grew(old(infos), infos) && fresh(nodes - old(nodes))
      ensures forall s :: s in sites && old(s.level) != Default ==> s.level == old(s.level)
      ensures forall s :: s in sites && old(Follows(s)) ==>
        (Follows(s) <==> !(old(s.level).InfoLevel? && Match(pattern, s.moduleName)))
    {
      hide First, Match, Base, InfoPath, SitePath, Unmatched;
      PrependAndRedirect(pattern, level);
      GrewBy([infos[0]], old(infos), infos);
      forall s | s in cached
        ensures s in sites
      {
        InUnmatched(old(cached), |old(cached)|, pattern, s);
      }
      forall s | s in sites
        ensures SiteOk(s)
        ensures old(Follows(s)) ==> (Follows(s) <==> !(old(s.level).InfoLevel? && Match(pattern, s.moduleName)))
      {
        InUnmatched(old(cached), |old(cached)|, pattern, s);
        SiteAfterPrepend(old(s.level), s.baseName, s.moduleName, s in old(cached), initedVmodule,
          old(entries), old(infos), Entry(pattern, level), infos[0]);
      }
    }

    // SetVLOGLevel as far as it concerns overrides that exist.
    method UpdateExisting(pattern: string, level: int) returns (result: int, found: bool)
      requires Valid()
      modifies `entries, infos
      ensures Valid() && found == Known(old(entries), pattern) && result == Was(old(Now()), pattern)
      ensures Now() == if found then Set(old(Now()), pattern, level) else old(Now())
      ensures forall s :: s in sites ==> Follows(s) == old(Follows(s))
    {
      hide First, Match, WithLevel, InfoPath, Hold, SitePath;
      result, found := SetExisting(pattern, level);
      if !found {
        SetsNothing(old(entries), pattern, level);
      }
      forall s | s in sites
        ensures First(entries, s.moduleName) == First(old(entries), s.moduleName)
      {
        FirstWithLevel(old(entries), pattern, level, s.moduleName);
      }
    }

    method SetVLOGLevel(pattern: string, level: int) returns (result: int)
      requires Valid()
      modifies this, nodes, sites
      ensures Valid() && Now() == Set(old(Now()), pattern, level) && sites == old(sites)
      ensures result == Was(old(Now()), pattern)
      ensures Grew(old(infos), infos) && fresh(nodes - old(nodes))
      ensures forall s :: s in sites && old(s.level) != Default ==> s.level == old(s.level)
      ensures forall s :: s in sites && old(Follows(s)) ==>
        (Follows(s) <==> !(old(s.level).InfoLevel? && Match(pattern, s.moduleName) && !Known(old(entries), pattern)))
    {
      hide First, Match, WithLevel, LeadsToFirst, Consistent;
      var found;
      result, found := UpdateExisting(pattern, level);
      if !found {
        AddOverride(pattern, level);
      }
    }

    // The entry a site is led to, once there is another in front of it.
    lemma StaysOnEntry(site: SiteFlag, es: seq<Entry>, before: seq<VModuleInfo>, e: Entry)
      requires Overrides() && entries == [e] + es && Grew(before, infos) && |before| == |es|
      requires LeadsToFirst(site.level, site.moduleName, es, before) && site.level.InfoLevel?
      requires Match(e.pattern, site.moduleName)
      ensures Deref(site.level) == Lookup(es, site.moduleName, flagsV)
      ensures Lookup(entries, site.moduleName, flagsV) == e.level
    {
      var k := First(es, site.moduleName);
      assert infos[|infos| - |before|..][k] == infos[k + 1];
      FirstOfPrepended(e, es, site.moduleName);
    }

    // The condition on patterns in Run cannot be dropped: a pattern that matches the name of
    // a site on an entry, but no entry yet, leaves the site where it is.  For some verbosity
    // its answer is then not what a lookup would find.
    method LeaveBehind(site: SiteFlag, pattern: string, level: int) returns (verbose: int, on: bool)
      requires Valid() && site in sites && site.level.InfoLevel? && Follows(site)
      requires Match(pattern, site.moduleName) && !Known(entries, pattern)
      requires level != Lookup(entries, site.moduleName, flagsV)
      modifies this, nodes, sites
      ensures Valid() && Now() == Set(old(Now()), pattern, level)
      ensures on != IsOn(Now(), site.fname, verbose)
    {
      hide First, Match, Base;
      var _ := SetVLOGLevel(pattern, level);
      StaysOnEntry(site, old(entries), old(infos), Entry(pattern, level));
      verbose := if Deref(site.level) < level then level else Deref(site.level);
      on := VlogIsOn(site, verbose);
    }

    ghost predicate AllFollow()
      reads this, sites
    {
      forall s :: s in sites ==> Follows(s)
    }

    // The sites of these files, in order; there are no others.
    ghost predicate Located(here: seq<SiteFlag>, fnames: seq<string>)
      reads this
    {
      && |here| == |fnames|
      && (forall k :: 0 <= k < |here| ==> here[k] in sites && here[k].fname == fnames[k])
      && (forall j, k :: 0 <= j < k < |here| ==> here[j] != here[k])
      && (forall s :: s in sites ==> s in here)
    }

    // One event of a run gives what the uncached machine gives.
    method Do(e: Event, here: seq<SiteFlag>, ghost fnames: seq<string>) returns (r: Reply)
      requires Valid() && AllFollow() && Located(here, fnames)
      requires e.Reach? ==> e.site < |fnames|
      requires e.Override? ==>
                 || Known(entries, e.pattern)
                 || forall s :: s in sites && s.level.InfoLevel? ==> !Match(e.pattern, s.moduleName)
      modifies this, nodes, sites
      ensures Valid() && AllFollow() && sites == old(sites)
      ensures forall s :: s in sites && s.level != NoLevel ==>
                old(s.level) != NoLevel || (e.Reach? && s == here[e.site] && old(initedVmodule))
      ensures Now() == Next(old(Now()), e) && r == Answer(old(Now()), fnames, e)
      ensures fresh(nodes - old(nodes))
    {
      match e
      case Reach(site, level) =>
        var on := VlogIsOn(here[site], level);
        r := On(on);
      case Override(pattern, level) =>
        var previous := SetVLOGLevel(pattern, level);
        r := Previous(previous);
      case Assign(v) =>
        flagsV := v;
        r := Nothing;
    }

    // Before a harmless event no site on an entry is matched by a new pattern.
    lemma NotOvertaken(start: Settings, events: seq<Event>, n: nat, here: seq<SiteFlag>, fnames: seq<string>,
                       s: SiteFlag)
      requires n < |events| && HarmlessAt(start, fnames, events, n) && events[n].Override?
      requires Valid() && Located(here, fnames) && Tracked(here, start, events, n) && Now() == After(start, events, n)
      requires !Known(entries, events[n].pattern) && s in sites && s.level.InfoLevel?
      ensures !Match(events[n].pattern, s.moduleName)
    {
      var site :| 0 <= site < |here| && here[site] == s;
      assert SiteOk(s) && !Overtakes(start, fnames, events, n, events[n].pattern, site);
    }

    // The n-th event of a run that began with these settings.
    method DoNth(ghost start: Settings, events: seq<Event>, n: nat, here: seq<SiteFlag>, ghost fnames: seq<string>,
                 replies: seq<Reply>)
      returns (replies': seq<Reply>)
      requires n < |events| && Wellformed(events, |fnames|) && Harmless(start, fnames, events)
      requires Valid() && AllFollow() && Located(here, fnames) && Tracked(here, start, events, n)
      requires Now() == After(start, events, n) && replies == Replies(start, fnames, events, n)
      modifies this, nodes, sites
      ensures Valid() && AllFollow() && Located(here, fnames) && sites == old(sites) && fresh(nodes - old(nodes))
      ensures Tracked(here, start, events, n + 1)
      ensures Now() == After(start, events, n + 1) && replies' == Replies(start, fnames, events, n + 1)
    {
      assert HarmlessAt(start, fnames, events, n);
      if events[n].Override? && !Known(entries, events[n].pattern) {
        forall s | s in sites && s.level.InfoLevel?
          ensures !Match(events[n].pattern, s.moduleName)
        {
          NotOvertaken(start, events, n, here, fnames, s);
        }
      }
      var reply := Do(events[n], here, fnames);
      replies' := replies + [reply];
    }

    // One site for each of these files.
    method NewSites(fnames: seq<string>) returns (here: seq<SiteFlag>)
      requires Valid() && AllFollow() && sites == {}
      modifies `sites
      ensures Valid() && AllFollow() && Located(here, fnames) && fresh(sites - old(sites))
      ensures forall k :: 0 <= k < |here| ==> here[k].level == NoLevel
    {
      hide Valid, AllFollow;
      here := [];
      while |here| < |fnames|
        invariant |here| <= |fnames| && Valid() && AllFollow()
        invariant forall k :: 0 <= k < |here| ==>
                    here[k] in sites && here[k].fname == fnames[k] && here[k].level == NoLevel
        invariant forall j, k :: 0 <= j < k < |here| ==> here[j] != here[k]
        invariant forall s :: s in sites ==> s in here
        invariant fresh(sites - old(sites))
      {
        var site := NewSite(fnames[|here|]);
        here := here + [site];
      }
    }

    // What every reachable state satisfies, said of one site: a pointer that is cached
    // leads to FLAGS_v exactly while the site is listed, and that exactly while no
    // override matches; else it leads to an override that does.  Neither list meets a
    // node twice, and no site is listed before the flag is parsed.
    lemma Reachable(site: SiteFlag)
      requires Valid() && site in sites
      ensures site.level != NoLevel ==>
        && (site.level == Default <==> site in cached)
        && (site in cached <==> !Known(entries, Base(site.fname)))
        && (site.level != Default ==>
              exists k :: 0 <= k < |infos| && site.level == InfoLevel(infos[k])
                && Match(entries[k].pattern, Base(site.fname)))
      ensures !initedVmodule ==> cached == []
      ensures forall j, k :: 0 <= j < k < |cached| ==> cached[j] != cached[k]
      ensures forall j, k :: 0 <= j < k < |infos| ==> infos[j] != infos[k]
    {
      if site.level.InfoLevel? {
        var k :| 0 <= k < |infos| && infos[k] == site.level.info;
        assert entries[k].pattern == infos[k].modulePattern;
      }
      if cached != [] {
        assert cached[0] in sites && SiteOk(cached[0]);
      }
      forall j, k | 0 <= j < k < |cached|
        ensures cached[j] != cached[k]
      {
        SitesDistinct(cached, j, k, cachedSiteList, null);
      }
      forall j, k | 0 <= j < k < |infos|
        ensures infos[j] != infos[k]
      {
        InfosDistinct(infos, j, k, vmoduleList, null);
      }
    }
  }

  // Whatever a program does, in any order, with sites in any files: as long as no new pattern
  // passed to SetVLOGLevel overtakes a site, each VLOG_IS_ON answers what an uncached lookup
  // would, and each SetVLOGLevel returns it.
  method Run(v: int, vmodule: string, fnames: seq<string>, events: seq<Event>) returns (replies: seq<Reply>)
    requires Wellformed(events, |fnames|) && Harmless(Settings(v, vmodule, false, []), fnames, events)
    ensures replies == Replies(Settings(v, vmodule, false, []), fnames, events, |events|)
  {
    hide Vlog.Valid, Vlog.AllFollow, Vlog.Located, Tracked, Harmless, Wellformed;
    ghost var start := Settings(v, vmodule, false, []);
    var vlog := new Vlog(v, vmodule);
    var here := vlog.NewSites(fnames);
    NothingTracked(here, start, events);
    replies := [];
    for n := 0 to |events|
      invariant vlog.Valid() && vlog.AllFollow() && vlog.Located(here, fnames) && Tracked(here, start, events, n)
      invariant fresh(vlog) && fresh(vlog.sites) && fresh(vlog.nodes)
      invariant vlog.Now() == After(start, events, n) && replies == Replies(start, fnames, events, n)
    {
      replies := vlog.DoNth(start, events, n, here, fnames, replies);
    }
  }
}
