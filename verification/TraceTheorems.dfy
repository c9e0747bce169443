// What a trace does to the output, for every trace the grammar can produce.
module TraceTheorems {
  import opened CStrings
  import opened Output
  import opened Trace

  // ----- the fields of the state -----------------------------------------------

  // With append off nothing but the nesting level can change.
  lemma {:induction false} ExecSuppressed(t: Trace, o: Output)
    requires !o.append
    ensures Exec(t, o) == o.(nest := Exec(t, o).nest)
  {
    match t
    case Then(first, rest) =>
      ExecSuppressed(first, o);
      ExecSuppressed(rest, Exec(first, o));
    case Abandon(u) => ExecSuppressed(u, o);
    case Quiet(u) => ExecSuppressed(u, o);
    case Nested(u) => ExecSuppressed(u, o.(nest := 0));
    case Retract(u) => ExecSuppressed(u, o);
    case _ =>
  }

  // The level and the append flag, which decide what is printed, do not depend on what was:
  // on any two outputs, of any sizes, a trace leaves them alike.
  lemma {:induction false} ControlKeptApart(t: Trace, o: Output, p: Output)
    requires o.nest == p.nest && o.append == p.append
    ensures Exec(t, o).nest == Exec(t, p).nest && Exec(t, o).append == Exec(t, p).append
  {
    hide MaybeAppend, MaybeAppendPrevName, MaybeAppendSeparator;
    match t
    case Deeper =>
    case Then(first, rest) =>
      ControlKeptApart(first, o, p);
      ControlKeptApart(rest, Exec(first, o), Exec(first, p));
    case Quiet(u) => ControlKeptApart(u, o.(append := false), p.(append := false));
    case Retract(u) =>
      ExecFrame(Separate, o);
      ExecFrame(Separate, p);
      ControlKeptApart(u, MaybeAppendSeparator(o), MaybeAppendSeparator(p));
    case _ =>
      ExecFrame(t, o);
      ExecFrame(t, p);
  }

  // The cursors stay inside the buffer.
  lemma {:induction false} ExecSound(t: Trace, o: Output)
    requires Sane(t) && o.WF()
    ensures Exec(t, o).WF()
  {
    match t
    case Put(s) => AppendSound(o, Text(s));
    case PutPrevName => PrevNameSound(o);
    case Separate => AppendSound(o, Text("::"));
    case Then(first, rest) =>
      ExecSound(first, o);
      ExecSound(rest, Exec(first, o));
    case Abandon(u) => ExecFrame(u, o);
    case Quiet(u) => ExecSound(u, o.(append := false));
    case Nested(u) => ExecSound(u, o.(nest := 0));
    case Retract(u) => RetractSound(u, o);
    case _ =>
  }

  lemma AppendSound(o: Output, c: Chars)
    requires o.WF()
    ensures MaybeAppendWithLength(o, c).WF()
  {
  }

  lemma PrevNameSound(o: Output)
    requires o.WF()
    ensures MaybeAppendPrevName(o).WF()
  {
    if o.prev.Name? {
      AppendSound(o, InOutput(o.prev.at, o.prev.length));
    }
  }

  lemma RetractSound(u: Trace, o: Output)
    requires Settled(u) && o.WF()
    ensures Exec(Retract(u), o).WF()
  {
    var p := MaybeAppendSeparator(o);
    AppendSound(o, Text("::"));
    SettledRestores(u, p);
    ExecFrame(u, p);
  }

  // ----- the text without a buffer ------------------------------------------------

  // The output in a world without limits and without abandoned alternatives:
  // the text, the previous name, the nesting level and the append flag.
  datatype Ideal = Ideal(text: string, name: string, nest: int, append: bool)

  function Say(d: Ideal, s: string): Ideal
  {
    if d.append && s != "" then
      var space := if s[0] == '<' && d.text != "" && d.text[|d.text| - 1] == '<' then " " else "";
      d.(text := d.text + space + s, name := if IsAlpha(s[0]) || s[0] == '_' then s else d.name)
    else d
  }

  function Separated(d: Ideal): Ideal
  {
    if d.nest >= 1 then Say(d, "::") else d
  }

  // What a trace means: abandoned alternatives and retracted separators mean nothing.
  function Meaning(t: Trace, d: Ideal): Ideal
  {
    match t
    case Nil => d
    case Put(s) => Say(d, s)
    case PutPrevName => Say(d, d.name)
    case Deeper => if d.nest > -1 then d.(nest := d.nest + 1) else d
    case Separate => Separated(d)
    case Then(first, rest) => Meaning(rest, Meaning(first, d))
    case Abandon(_) => d
    case Quiet(u) => Meaning(u, d.(append := false)).(append := d.append)
    case Nested(u) => Meaning(u, d.(nest := 0)).(nest := d.nest)
    case Retract(_) => d
  }

  // Does a buffer of the given size hold all text, that of abandoned alternatives
  // included, and the NUL?
  predicate Fits(t: Trace, d: Ideal, size: nat)
  {
    match t
    case Then(first, rest) => Fits(first, d, size) && Fits(rest, Meaning(first, d), size)
    case Abandon(u) => Fits(u, d, size)
    case Quiet(u) => Fits(u, d.(append := false), size)
    case Nested(u) => Fits(u, d.(nest := 0), size)
    case Retract(u) => HasRoom(d, Separated(d), size) && Fits(u, Separated(d), size)
    case _ => HasRoom(d, Meaning(t, d), size)
  }

  predicate HasRoom(d: Ideal, e: Ideal, size: nat)
  {
    e.text != d.text ==> |e.text| < size
  }

  // The output state holds exactly the ideal text, and nothing was dropped.
  ghost predicate Agrees(o: Output, d: Ideal)
  {
    && o.WF() && !o.Dropped()
    && o.outCur == |d.text| && o.outCur <= |o.out| && o.out[..o.outCur] == d.text
    && o.nest == d.nest && o.append == d.append
    && (match o.prev
        case NoName => d.name == ""
        case Name(at, length) => at + length <= o.outCur && o.out[at..at + length] == d.name && d.name != "")
  }

  // ----- one action -----------------------------------------------------------------

  // Copying to the end of the text, even out of the text itself, adds the spelling.
  lemma {:induction false} AppendLoopCopies(o: Output, c: Chars, i: nat, s: string)
    requires i <= c.Length() == |s| && o.outCur + (c.Length() - i) < |o.out|
    requires c.InOutput? ==> c.at + c.length <= o.outCur - i
    requires forall k :: 0 <= k < |s| ==> c.Read(k, o.out) == s[k]
    requires i <= o.outCur
    ensures AppendLoop(o, c, i).out[..AppendLoop(o, c, i).outCur] == o.out[..o.outCur] + s[i..]
    decreases c.Length() - i
  {
    if i < c.Length() {
      var p := o.(out := o.out[o.outCur := c.Read(i, o.out)], outCur := o.outCur + 1);
      assert p.out[..p.outCur] == o.out[..o.outCur] + [s[i]];
      AppendLoopCopies(p, c, i + 1, s);
      assert s[i..] == [s[i]] + s[i + 1..];
    } else {
      assert s[i..] == "";
    }
  }

  lemma AppendCopies(o: Output, c: Chars, s: string)
    requires c.Length() == |s| > 0 && o.outCur + |s| < |o.out|
    requires c.InOutput? ==> c.at + c.length <= o.outCur
    requires forall k :: 0 <= k < |s| ==> c.Read(k, o.out) == s[k]
    ensures Append(o, c).out[..Append(o, c).outCur] == o.out[..o.outCur] + s
  {
    AppendLoopCopies(o, c, 0, s);
  }

  // The space between two '<'.
  lemma SpaceAgrees(o: Output, d: Ideal, c: Chars, s: string)
    requires Agrees(o, d) && c.Length() == |s| > 0 && c.Read(0, o.out) == s[0]
    ensures var p := SpaceBefore(o, c);
            var text := d.text + (if s[0] == '<' && d.text != "" && d.text[|d.text| - 1] == '<' then " " else "");
            && |p.out| == |o.out| && p.out[..o.outCur] == o.out[..o.outCur]
            && p == o.(outCur := p.outCur, overflowed := p.overflowed, out := p.out)
            && (!p.overflowed ==> p.outCur == |text| && p.outCur <= |p.out| && p.out[..p.outCur] == text)
            && (p.overflowed <==> text != d.text && |text| >= |o.out|)
  {
    assert d.text != "" ==> o.out[o.outCur - 1] == o.out[..o.outCur][o.outCur - 1];
    if s[0] == '<' && d.text != "" && d.text[|d.text| - 1] == '<' && o.outCur + 1 < |o.out| {
      AppendCopies(o, Text(" "), " ");
    }
  }

  // Appending s, spelled by c, does what the ideal world does, or drops a character.
  lemma AppendAgrees(o: Output, d: Ideal, c: Chars, s: string)
    requires Agrees(o, d) && c.Length() == |s| && (forall k :: 0 <= k < |s| ==> c.Read(k, o.out) == s[k])
    requires c.InOutput? ==> c.at + c.length <= o.outCur
    ensures var r := MaybeAppendWithLength(o, c);
            if HasRoom(d, Say(d, s), |o.out|) then Agrees(r, Say(d, s)) else r.Dropped()
  {
    if d.append && s != "" {
      assert c.Read(0, o.out) == s[0];
      SpaceAgrees(o, d, c, s);
      var p := SpaceBefore(o, c);
      forall k | 0 <= k < |s|
        ensures c.Read(k, p.out) == s[k]
      {
        assert c.InOutput? ==> p.out[..o.outCur][c.at + k] == o.out[..o.outCur][c.at + k];
      }
      if !p.overflowed {
        SpacedAgrees(o, d, p, c, s);
      }
    }
  }

  lemma SpacedAgrees(o: Output, d: Ideal, p: Output, c: Chars, s: string)
    requires Agrees(o, d) && d.append && c.Length() == |s| > 0
    requires p == o.(outCur := p.outCur, out := p.out) && |p.out| == |o.out| && o.outCur <= p.outCur <= |p.out|
    requires p.out[..p.outCur] + s == Say(d, s).text
    requires c.InOutput? ==> c.at + c.length <= o.outCur
    requires forall k :: 0 <= k < |s| ==> c.Read(k, p.out) == s[k]
    ensures var r := Append(Remember(p, c), c);
            if |Say(d, s).text| < |o.out| then Agrees(r, Say(d, s)) else r.Dropped()
  {
    var q := Remember(p, c);
    var r := Append(q, c);
    assert |Say(d, s).text| == p.outCur + |s|;
    if p.outCur + |s| < |p.out| {
      AppendCopies(q, c, s);
      NameAgrees(o, d, p, c, s, r);
    }
  }

  // A slice below two texts that begin alike is the same in both.
  lemma SliceKept(before: string, cur: nat, now: string, nowCur: nat, text: string, more: string, at: nat, end: nat)
    requires cur <= |before| && before[..cur] == text && nowCur <= |now| && now[..nowCur] == more && text <= more
    requires at <= end <= cur
    ensures end <= |now| && now[at..end] == before[at..end]
  {
    forall k | at <= k < end
      ensures now[k] == before[k]
    {
      assert now[..nowCur][k] == more[k] == text[k] == before[..cur][k];
    }
  }

  lemma SliceIsEnd(out: string, cur: nat, text: string, s: string, at: nat)
    requires cur <= |out| && out[..cur] == text && at + |s| == cur && text[at..] == s
    ensures out[at..cur] == s
  {
    forall k | at <= k < cur
      ensures out[k] == s[k - at]
    {
      assert out[..cur][k] == text[k] == text[at..][k - at];
    }
  }

  lemma NameAgrees(o: Output, d: Ideal, p: Output, c: Chars, s: string, r: Output)
    requires Agrees(o, d) && d.append && c.Length() == |s| > 0 && c.Read(0, p.out) == s[0]
    requires o.outCur <= p.outCur && p.prev == o.prev && r.prev == Remember(p, c).prev
    requires r.outCur == p.outCur + |s| <= |r.out| && r.out[..r.outCur] == Say(d, s).text
    ensures match r.prev
            case NoName => Say(d, s).name == ""
            case Name(at, length) =>
              at + length <= r.outCur && r.out[at..at + length] == Say(d, s).name && Say(d, s).name != ""
  {
    var text := Say(d, s).text;
    if IsAlpha(s[0]) || s[0] == '_' {
      SliceIsEnd(r.out, r.outCur, text, s, p.outCur);
    } else {
      NameKept(o, d, r, text);
    }
  }

  // The name remembered before is still there under a longer text.
  lemma NameKept(o: Output, d: Ideal, r: Output, text: string)
    requires Agrees(o, d) && r.prev == o.prev && r.outCur <= |r.out| && r.out[..r.outCur] == text && d.text <= text
    ensures match r.prev
            case NoName => d.name == ""
            case Name(at, length) => at + length <= r.outCur && r.out[at..at + length] == d.name && d.name != ""
  {
    if o.prev.Name? {
      SliceKept(o.out, o.outCur, r.out, r.outCur, d.text, text, o.prev.at, o.prev.at + o.prev.length);
    }
  }

  // ----- whole traces ---------------------------------------------------------------

  // The text only grows.
  lemma {:induction false} MeaningExtends(t: Trace, d: Ideal)
    ensures |d.text| <= |Meaning(t, d).text| && Meaning(t, d).text[..|d.text|] == d.text
    ensures Meaning(t, d).append == d.append
  {
    match t
    case Then(first, rest) =>
      MeaningExtends(first, d);
      MeaningExtends(rest, Meaning(first, d));
    case Quiet(u) => MeaningExtends(u, d.(append := false));
    case Nested(u) => MeaningExtends(u, d.(nest := 0));
    case _ =>
  }

  // A buffer drops a character exactly when something, abandoned text included,
  // does not fit; if everything fits, it holds the text of the accepted parse alone.
  ghost predicate Refines(t: Trace, o: Output, d: Ideal)
  {
    if Fits(t, d, |o.out|) then Agrees(Exec(t, o), Meaning(t, d)) else Exec(t, o).Dropped()
  }

  // The refinement, for every trace.
  lemma {:induction false} ExecAgrees(t: Trace, o: Output, d: Ideal)
    requires Sane(t) && Agrees(o, d)
    ensures Refines(t, o, d)
    decreases t, 0
  {
    hide MaybeCancelLastSeparator, Append;
    match t
    case Nil =>
    case Deeper =>
    case Put(s) => AppendAgrees(o, d, Text(s), s);
    case PutPrevName => PrevNameAgrees(o, d);
    case Separate => SeparatorAgrees(o, d);
    case Then(first, rest) =>
      ExecAgrees(first, o, d);
      ExecFrame(first, o);
      if Fits(first, d, |o.out|) {
        ExecAgrees(rest, Exec(first, o), Meaning(first, d));
      }
      ThenAgrees(first, rest, o, d);
    case Abandon(u) =>
      ExecAgrees(u, o, d);
      AbandonAgrees(u, o, d);
    case Quiet(u) =>
      ExecAgrees(u, o.(append := false), d.(append := false));
      QuietAgrees(u, o, d);
    case Nested(u) =>
      ExecAgrees(u, o.(nest := 0), d.(nest := 0));
      NestedAgrees(u, o, d);
    case Retract(u) => RetractAgrees(u, o, d);
  }

  lemma ThenAgrees(first: Trace, rest: Trace, o: Output, d: Ideal)
    requires Refines(first, o, d)
    requires Fits(first, d, |o.out|) ==> Refines(rest, Exec(first, o), Meaning(first, d))
    ensures Refines(Then(first, rest), o, d)
  {
    ExecFrame(first, o);
    ExecFrame(rest, Exec(first, o));
  }

  lemma QuietAgrees(u: Trace, o: Output, d: Ideal)
    requires Agrees(o, d) && Refines(u, o.(append := false), d.(append := false))
    ensures Refines(Quiet(u), o, d)
  {
  }

  lemma NestedAgrees(u: Trace, o: Output, d: Ideal)
    requires Agrees(o, d) && Refines(u, o.(nest := 0), d.(nest := 0))
    ensures Refines(Nested(u), o, d)
  {
  }

  lemma {:induction false} SettledMeansNothing(t: Trace, d: Ideal)
    requires Settled(t)
    ensures Meaning(t, d) == d
  {
    match t
    case Then(first, rest) =>
      SettledMeansNothing(first, d);
      SettledMeansNothing(rest, d);
    case _ =>
  }

  lemma {:induction false} RetractAgrees(u: Trace, o: Output, d: Ideal)
    requires Settled(u) && Sane(u) && Agrees(o, d)
    ensures Refines(Retract(u), o, d)
    decreases u, 1
  {
    hide Agrees, MaybeAppendSeparator, MaybeCancelLastSeparator, Separated;
    var p, e := MaybeAppendSeparator(o), Separated(d);
    SeparatorAgrees(o, d);
    ExecFrame(Separate, o);
    if !HasRoom(d, e, |o.out|) {
      DroppedStays(u, p);
    } else {
      ExecAgrees(u, p, e);
      if Fits(u, e, |o.out|) {
        RetractFits(u, o, d, p);
      } else {
        CancelKeepsDropped(Exec(u, p));
      }
    }
  }

  // A separator that did not fit.
  lemma DroppedStays(u: Trace, p: Output)
    requires p.Dropped()
    ensures MaybeCancelLastSeparator(Exec(u, p)).Dropped()
  {
    ExecFrame(u, p);
    CancelKeepsDropped(Exec(u, p));
  }

  // A component that did not fit.
  lemma CancelKeepsDropped(r: Output)
    requires r.Dropped()
    ensures MaybeCancelLastSeparator(r).Dropped()
  {
  }

  // Everything fitted.
  lemma RetractFits(u: Trace, o: Output, d: Ideal, p: Output)
    requires Settled(u) && Agrees(o, d) && p == MaybeAppendSeparator(o)
    requires Agrees(Exec(u, p), Meaning(u, Separated(d)))
    ensures Agrees(MaybeCancelLastSeparator(Exec(u, p)), d)
  {
    SettledMeansNothing(u, Separated(d));
    SettledRestores(u, p);
    SeparatorKeepsName(o, d);
    CancelAgrees(Exec(u, p), d);
  }

  lemma SeparatorKeepsName(o: Output, d: Ideal)
    requires Agrees(o, d)
    ensures MaybeAppendSeparator(o).prev == o.prev
    ensures o.prev.Name? ==> o.prev.at + o.prev.length <= |d.text|
  {
  }

  lemma CancelAgrees(r: Output, d: Ideal)
    requires Agrees(r, Separated(d))
    requires r.prev.Name? ==> r.prev.at + r.prev.length <= |d.text|
    ensures Agrees(MaybeCancelLastSeparator(r), d)
  {
  }

  lemma PrevNameAgrees(o: Output, d: Ideal)
    requires Agrees(o, d)
    ensures if HasRoom(d, Say(d, d.name), |o.out|) then Agrees(MaybeAppendPrevName(o), Say(d, d.name))
            else MaybeAppendPrevName(o).Dropped()
  {
    match o.prev
    case NoName =>
    case Name(at, length) =>
      forall k | 0 <= k < length
        ensures InOutput(at, length).Read(k, o.out) == d.name[k]
      {
        assert o.out[at..at + length][k] == d.name[k];
      }
      AppendAgrees(o, d, InOutput(at, length), d.name);
  }

  lemma SayAgrees(o: Output, d: Ideal, s: string) returns (r: Output, e: Ideal)
    requires Agrees(o, d)
    ensures r == MaybeAppend(o, s) && e == Say(d, s)
    ensures if HasRoom(d, e, |o.out|) then Agrees(r, e) else r.Dropped()
  {
    r, e := MaybeAppend(o, s), Say(d, s);
    AppendAgrees(o, d, Text(s), s);
  }

  lemma SeparatorAgrees(o: Output, d: Ideal)
    requires Agrees(o, d)
    ensures if HasRoom(d, Separated(d), |o.out|) then Agrees(MaybeAppendSeparator(o), Separated(d))
            else MaybeAppendSeparator(o).Dropped()
  {
    if o.nest >= 1 {
      var r, e := SayAgrees(o, d, "::");
      assert r == MaybeAppendSeparator(o) && e == Separated(d);
    }
  }

  // A buffer that holds a longer text with the same beginning holds that beginning.
  lemma BeginningKept(before: string, now: string, text: string, more: string)
    requires |text| <= |before| == |now| && before[..|text|] == text
    requires |more| <= |now| && now[..|more|] == more && text <= more
    ensures now[..|text|] == text
  {
    forall k | 0 <= k < |text|
      ensures now[k] == before[k]
    {
      assert now[..|more|][k] == more[k] == text[k] == before[..|text|][k];
    }
  }

  lemma RestoredAgrees(o: Output, d: Ideal, r: Output, e: Ideal)
    requires Agrees(o, d) && Agrees(r, e) && d.text <= e.text && |r.out| == |o.out|
    ensures Agrees(r.Restore(o), d)
  {
    BeginningKept(o.out, r.out, d.text, e.text);
    NameKept(o, d, r.Restore(o), d.text);
  }

  // The bytes an abandoned alternative leaves behind lie above the text.
  lemma AbandonAgrees(u: Trace, o: Output, d: Ideal)
    requires Agrees(o, d) && Refines(u, o, d)
    ensures Refines(Abandon(u), o, d)
  {
    ExecFrame(u, o);
    if Fits(u, d, |o.out|) {
      MeaningExtends(u, d);
      RestoredAgrees(o, d, Exec(u, o), Meaning(u, d));
    } else {
      assert !o.overflowed;
    }
  }

  // ----- silence and the final NUL -----------------------------------------------------

  lemma {:induction false} QuietMeansNothing(t: Trace, d: Ideal)
    requires !d.append
    ensures Meaning(t, d) == d.(nest := Meaning(t, d).nest)
    ensures forall size :: Fits(t, d, size)
    ensures Level(t) ==> Meaning(t, d) == d
  {
    match t
    case Then(first, rest) =>
      QuietMeansNothing(first, d);
      QuietMeansNothing(rest, Meaning(first, d));
    case Abandon(u) => QuietMeansNothing(u, d);
    case Quiet(u) => QuietMeansNothing(u, d);
    case Nested(u) => QuietMeansNothing(u, d.(nest := 0));
    case Retract(u) => QuietMeansNothing(u, d);
    case _ =>
  }

  lemma {:induction false} SilentDoesNothing(t: Trace, o: Output, d: Ideal, size: nat)
    requires Silent(t)
    ensures Exec(t, o) == o && Meaning(t, d) == d && Fits(t, d, size)
  {
    match t
    case Then(first, rest) =>
      SilentDoesNothing(first, o, d, size);
      SilentDoesNothing(rest, o, d, size);
    case Abandon(u) => SilentDoesNothing(u, o, d, size);
    case Quiet(u) =>
      ExecSuppressed(u, o.(append := false));
      ExecFrame(u, o.(append := false));
      QuietMeansNothing(u, d.(append := false));
    case Nested(u) => SilentDoesNothing(u, o.(nest := 0), d.(nest := 0), size);
    case _ =>
  }

  // The last thing a trace does to the text is to append something or to cancel a
  // separator; both write the NUL.
  ghost predicate Ends(t: Trace, d: Ideal)
  {
    match t
    case Put(s) => d.append && s != ""
    case PutPrevName => d.append && d.name != ""
    case Then(first, rest) => Ends(rest, Meaning(first, d)) || (Ends(first, d) && Silent(rest))
    case Nested(u) => Ends(u, d.(nest := 0))
    case Retract(_) => d.nest >= 1 && d.append
    case _ => false
  }

  ghost predicate Terminated(o: Output)
  {
    o.outCur < |o.out| && o.out[o.outCur] == '\0'
  }

  lemma {:induction false} EndsTerminated(t: Trace, o: Output, d: Ideal)
    requires Sane(t) && Agrees(o, d) && Fits(t, d, |o.out|) && Ends(t, d)
    ensures Terminated(Exec(t, o))
  {
    ExecAgrees(t, o, d);
    match t
    case Put(s) =>
    case PutPrevName =>
    case Then(first, rest) =>
      ExecAgrees(first, o, d);
      ExecFrame(first, o);
      if Ends(rest, Meaning(first, d)) {
        EndsTerminated(rest, Exec(first, o), Meaning(first, d));
      } else {
        EndsTerminated(first, o, d);
        SilentDoesNothing(rest, Exec(first, o), Meaning(first, d), |o.out|);
      }
    case Nested(u) => EndsTerminated(u, o.(nest := 0), d.(nest := 0));
    case Retract(u) => RetractTerminated(u, o, d);
  }

  lemma RetractTerminated(u: Trace, o: Output, d: Ideal)
    requires Settled(u) && Sane(u) && Agrees(o, d) && Fits(Retract(u), d, |o.out|) && d.nest >= 1 && d.append
    ensures Terminated(Exec(Retract(u), o))
  {
    hide MaybeAppendSeparator, MaybeCancelLastSeparator, Agrees;
    var p := MaybeAppendSeparator(o);
    SeparatorAgrees(o, d);
    CursorAgrees(p, Separated(d));
    SettledRestores(u, p);
    ExecFrame(u, p);
    CancelTerminates(Exec(u, p));
  }

  lemma CursorAgrees(o: Output, d: Ideal)
    requires Agrees(o, d)
    ensures o.outCur == |d.text| && (o.outCur == 0 || o.outCur < |o.out|) && o.nest == d.nest && o.append == d.append
  {
  }

  lemma CancelTerminates(q: Output)
    requires q.nest >= 1 && q.append && 2 <= q.outCur < |q.out| + 2
    ensures Terminated(MaybeCancelLastSeparator(q))
  {
  }
}
