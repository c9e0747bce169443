// Three spare bytes are enough: whatever abandoned alternatives dropped, and wherever they
// wrote a NUL, a text that leaves three bytes of the buffer free comes out whole.
module SpareRoom {
  import opened CStrings
  import opened Output
  import opened Trace
  import opened TraceTheorems

  predicate SameStart(out: string, text: string)
    requires |out| <= |text| + 3
  {
    forall k :: 0 <= k < |out| - 3 ==> out[k] == text[k]
  }

  // The output holds the ideal text, or of a longer one all but what the last three
  // bytes of the buffer would hold.
  ghost predicate Holds(o: Output, d: Ideal)
  {
    && o.WF() && o.nest == d.nest && o.append == d.append
    && if |d.text| + 3 <= |o.out| then Agrees(o.(lost := false), d)
       else |o.out| <= o.outCur + 3 && SameStart(o.out, d.text)
  }

  // ----- one action -----------------------------------------------------------------

  // What was dropped before has no influence.
  lemma {:induction false} AppendLoopForgets(o: Output, c: Chars, i: nat, lost: bool)
    requires i <= c.Length()
    ensures AppendLoop(o.(lost := lost), c, i) == AppendLoop(o, c, i).(lost := lost)
    decreases c.Length() - i
  {
    hide Chars.Read;
    if i < c.Length() && o.outCur + 1 < |o.out| {
      var p := o.(out := o.out[o.outCur := c.Read(i, o.out)], outCur := o.outCur + 1);
      assert p.(lost := lost) == o.(lost := lost).(out := p.out, outCur := p.outCur);
      AppendLoopForgets(p, c, i + 1, lost);
    }
  }

  lemma AppendForgets(o: Output, c: Chars, lost: bool)
    requires c.Length() > 0
    ensures Append(o.(lost := lost), c) == Append(o, c).(lost := lost)
  {
    AppendLoopForgets(o, c, 0, lost);
  }

  lemma PutForgets(o: Output, c: Chars, lost: bool)
    ensures MaybeAppendWithLength(o.(lost := lost), c) == MaybeAppendWithLength(o, c).(lost := lost)
  {
    hide Append;
    AppendForgets(o, Text(" "), lost);
    if c.Length() > 0 {
      AppendForgets(Remember(SpaceBefore(o, c), c), c, lost);
    }
  }

  // Copying fills the buffer up to its last byte.
  lemma {:induction false} AppendLoopFills(o: Output, c: Chars, i: nat, s: string)
    requires i <= c.Length() == |s| && o.outCur < |o.out| && i <= o.outCur
    requires c.InOutput? ==> c.at + c.length <= o.outCur - i
    requires forall k :: 0 <= k < |s| ==> c.Read(k, o.out) == s[k]
    ensures var r := AppendLoop(o, c, i);
      && r.outCur == (if o.outCur + |s| - i < |o.out| then o.outCur + |s| - i else |o.out| - 1)
      && forall k :: o.outCur <= k < r.outCur ==> r.out[k] == s[i + k - o.outCur]
    decreases c.Length() - i
  {
    if i < c.Length() && o.outCur + 1 < |o.out| {
      var p := o.(out := o.out[o.outCur := c.Read(i, o.out)], outCur := o.outCur + 1);
      AppendLoopFills(p, c, i + 1, s);
      var r := AppendLoop(o, c, i);
      assert r == AppendLoop(p, c, i + 1);
      assert r.out[o.outCur] == p.out[o.outCur] == s[i];
    }
  }

  // A text that does not fit is there up to the last byte.
  lemma AppendFills(o: Output, c: Chars, text: string, s: string, more: string)
    requires o.outCur == |text| < |o.out| && o.out[..o.outCur] == text && more == text + s && |o.out| <= |more|
    requires c.Length() == |s| > 0 && (c.InOutput? ==> c.at + c.length <= o.outCur)
    requires forall k :: 0 <= k < |s| ==> c.Read(k, o.out) == s[k]
    ensures Append(o, c).outCur == |o.out| - 1
    ensures forall k :: 0 <= k < |o.out| - 1 ==> Append(o, c).out[k] == more[k]
  {
    AppendLoopFills(o, c, 0, s);
    forall k | 0 <= k < |o.out| - 1
      ensures Append(o, c).out[k] == more[k]
    {
      if k < |text| {
        assert o.out[..o.outCur][k] == text[k];
      }
    }
  }

  lemma PutKeeps(o: Output, c: Chars)
    ensures var r := MaybeAppendWithLength(o, c);
      && o.outCur <= r.outCur && |r.out| == |o.out| && r.nest == o.nest && r.append == o.append
      && forall k :: 0 <= k < o.outCur && k < |o.out| ==> r.out[k] == o.out[k]
  {
    hide Append, Chars.Read;
  }

  // Text that begins in the last three bytes leaves the others alone.
  lemma PutBehind(o: Output, d: Ideal, c: Chars, s: string)
    requires Holds(o, d) && |o.out| < |d.text| + 3
    ensures Holds(MaybeAppendWithLength(o, c), Say(d, s))
  {
    hide MaybeAppendWithLength, Agrees;
    AppendSound(o, c);
    PutKeeps(o, c);
  }

  // A text that overflows the buffer.
  lemma PutOver(o: Output, d: Ideal, c: Chars, s: string)
    requires Agrees(o, d) && |d.text| + 3 <= |o.out|
    requires c.Length() == |s| && (c.InOutput? ==> c.at + c.length <= o.outCur)
    requires forall k :: 0 <= k < |s| ==> c.Read(k, o.out) == s[k]
    requires !HasRoom(d, Say(d, s), |o.out|)
    ensures Holds(MaybeAppendWithLength(o, c), Say(d, s))
  {
    AppendSound(o, c);
    assert c.Read(0, o.out) == s[0];
    SpaceAgrees(o, d, c, s);
    var p := SpaceBefore(o, c);
    forall k | 0 <= k < |s|
      ensures c.Read(k, p.out) == s[k]
    {
      assert c.InOutput? ==> p.out[..o.outCur][c.at + k] == o.out[..o.outCur][c.at + k];
    }
    AppendFills(Remember(p, c), c, p.out[..p.outCur], s, Say(d, s).text);
  }

  lemma PutHolds(o: Output, d: Ideal, c: Chars, s: string)
    requires Holds(o, d) && c.Length() == |s|
    requires |d.text| + 3 <= |o.out| && c.InOutput? ==> c.at + c.length <= o.outCur
    requires |d.text| + 3 <= |o.out| ==> forall k :: 0 <= k < |s| ==> c.Read(k, o.out) == s[k]
    ensures Holds(MaybeAppendWithLength(o, c), Say(d, s))
  {
    if |d.text| + 3 <= |o.out| {
      var o0 := o.(lost := false);
      PutForgets(o, c, false);
      if HasRoom(d, Say(d, s), |o.out|) {
        AppendAgrees(o0, d, c, s);
        AgreesHolds(MaybeAppendWithLength(o, c), Say(d, s));
      } else {
        PutOver(o0, d, c, s);
        ForgottenHolds(MaybeAppendWithLength(o, c), Say(d, s));
      }
    } else {
      PutBehind(o, d, c, s);
    }
  }

  lemma AgreesHolds(o: Output, d: Ideal)
    requires Agrees(o.(lost := false), d)
    ensures Holds(o, d)
  {
    forall k | 0 <= k < |d.text|
      ensures o.out[k] == d.text[k]
    {
      assert o.out[..o.outCur][k] == d.text[k];
    }
  }

  lemma ForgottenHolds(o: Output, d: Ideal)
    requires Holds(o.(lost := false), d)
    ensures Holds(o, d)
  {
  }

  lemma PrevNameHolds(o: Output, d: Ideal)
    requires Holds(o, d)
    ensures Holds(MaybeAppendPrevName(o), Say(d, d.name))
  {
    match o.prev
    case NoName => PutBehindNothing(o, d);
    case Name(at, length) =>
      var c := InOutput(at, length);
      if |d.text| + 3 <= |o.out| {
        forall k | 0 <= k < length
          ensures c.Read(k, o.out) == d.name[k]
        {
          assert o.out[at..at + length][k] == d.name[k];
        }
        PutHolds(o, d, c, d.name);
      } else {
        PutBehind(o, d, c, d.name);
      }
  }

  // Where there is no name the last name is empty, or beyond what counts.
  lemma PutBehindNothing(o: Output, d: Ideal)
    requires Holds(o, d) && o.prev.NoName?
    ensures Holds(o, Say(d, d.name))
  {
  }

  lemma SeparatorHolds(o: Output, d: Ideal)
    requires Holds(o, d)
    ensures Holds(MaybeAppendSeparator(o), Separated(d))
  {
    if o.nest >= 1 {
      PutHolds(o, d, Text("::"), "::");
    }
  }

  // The level and the append flag may be set on both sides.
  lemma FieldsHold(o: Output, d: Ideal, nest: int, append: bool)
    requires Holds(o, d) && nest >= -1
    ensures Holds(o.(nest := nest, append := append), d.(nest := nest, append := append))
  {
  }

  // ----- whole traces ---------------------------------------------------------------

  lemma {:induction false} ExecHolds(t: Trace, o: Output, d: Ideal)
    requires Sane(t) && Holds(o, d)
    ensures Holds(Exec(t, o), Meaning(t, d))
    decreases t, 0
  {
    hide MaybeAppendWithLength, MaybeCancelLastSeparator, Agrees, SameStart;
    match t
    case Nil =>
    case Deeper => FieldsHold(o, d, MaybeIncreaseNestLevel(o).nest, o.append);
    case Put(s) => PutHolds(o, d, Text(s), s);
    case PutPrevName => PrevNameHolds(o, d);
    case Separate => SeparatorHolds(o, d);
    case Then(first, rest) =>
      ExecHolds(first, o, d);
      ExecHolds(rest, Exec(first, o), Meaning(first, d));
    case Abandon(u) =>
      ExecHolds(u, o, d);
      AbandonHolds(u, o, d);
    case Quiet(u) =>
      FieldsHold(o, d, o.nest, false);
      ExecHolds(u, o.(append := false), d.(append := false));
      var p := Exec(u, o.(append := false));
      FieldsHold(p, Meaning(u, d.(append := false)), p.nest, o.append);
    case Nested(u) =>
      FieldsHold(o, d, 0, o.append);
      ExecHolds(u, o.(nest := 0), d.(nest := 0));
      var p := Exec(u, o.(nest := 0));
      FieldsHold(p, Meaning(u, d.(nest := 0)), o.nest, p.append);
    case Retract(u) => RetractHolds(u, o, d);
  }

  // What an abandoned alternative wrote lies behind the text, or in the last three bytes.
  lemma AbandonHolds(u: Trace, o: Output, d: Ideal)
    requires Holds(o, d) && Holds(Exec(u, o), Meaning(u, d))
    ensures Holds(Exec(u, o).Restore(o), d)
  {
    ExecFrame(u, o);
    MeaningExtends(u, d);
    Beginning(Exec(u, o), Meaning(u, d), o, d);
  }

  lemma Beginning(r: Output, e: Ideal, o: Output, d: Ideal)
    requires Holds(o, d) && Holds(r, e) && |r.out| == |o.out| && d.text <= e.text
    ensures Holds(r.Restore(o), d)
  {
    forall k | 0 <= k < |d.text| && k < |o.out| - 3
      ensures r.out[k] == o.out[k] == d.text[k]
    {
      assert |e.text| + 3 <= |o.out| ==> r.out[..r.outCur][k] == e.text[k];
      assert |d.text| + 3 <= |o.out| ==> o.out[..o.outCur][k] == d.text[k];
    }
    if |d.text| + 3 <= |o.out| {
      assert r.out[..o.outCur] == d.text;
      SameName(o, d, r.Restore(o));
    }
  }

  lemma {:induction false} RetractHolds(u: Trace, o: Output, d: Ideal)
    requires Settled(u) && Sane(u) && Holds(o, d)
    ensures Holds(Exec(Retract(u), o), d)
    decreases u, 1
  {
    var p, e := MaybeAppendSeparator(o), Separated(d);
    SeparatorHolds(o, d);
    ExecHolds(u, p, e);
    SettledMeansNothing(u, e);
    SettledRestores(u, p);
    ExecFrame(u, p);
    CancelHolds(o, d, p, Exec(u, p));
  }

  // The separator and its cancellation leave the cursor where it was, or three bytes before
  // the end of the buffer.
  lemma SeparatorAt(o: Output, d: Ideal)
    requires Holds(o, d) && o.nest >= 1 && o.append
    ensures var p := MaybeAppendSeparator(o);
      && p.prev == o.prev && (p.overflowed || (!o.overflowed && p.outCur == o.outCur + 2))
      && if |d.text| + 3 <= |o.out| then p.outCur == |d.text| + 2 && !p.overflowed else |o.out| <= p.outCur + 1
  {
    assert MaybeAppendSeparator(o) == Append(o, Text("::"));
    if o.outCur < |o.out| {
      AppendLoopFills(o, Text("::"), 0, "::");
    }
  }

  lemma CancelHolds(o: Output, d: Ideal, p: Output, q: Output)
    requires Holds(o, d) && p == MaybeAppendSeparator(o) && Holds(q, Separated(d)) && q == q.Restore(p)
    requires |q.out| == |o.out|
    ensures Holds(MaybeCancelLastSeparator(q), d)
  {
    if o.nest >= 1 && o.append {
      SeparatorAt(o, d);
      Cancelled(o, d, q);
    }
  }

  lemma Cancelled(o: Output, d: Ideal, q: Output)
    requires Holds(o, d) && o.nest >= 1 && o.append && Holds(q, Separated(d)) && |q.out| == |o.out|
    requires q.prev == o.prev && q.nest == o.nest && q.append
    requires q.overflowed || (!o.overflowed && q.outCur == o.outCur + 2)
    requires if |d.text| + 3 <= |o.out| then q.outCur == |d.text| + 2 && !q.overflowed else |o.out| <= q.outCur + 1
    ensures Holds(MaybeCancelLastSeparator(q), d)
  {
    var r := MaybeCancelLastSeparator(q);
    assert Separated(d).text == d.text + "::";
    forall k | 0 <= k < |d.text| && k < |o.out| - 3
      ensures r.out[k] == q.out[k] == d.text[k]
    {
      assert |d.text| + 5 <= |o.out| ==> q.out[..q.outCur][k] == Separated(d).text[k];
    }
    if |d.text| + 3 <= |o.out| {
      assert r.out[..o.outCur] == d.text;
      SameName(o, d, r);
    }
  }

  // The same text is under the same name.
  lemma SameName(o: Output, d: Ideal, r: Output)
    requires Agrees(o.(lost := false), d)
    requires r.outCur == o.outCur <= |r.out| && r.out[..r.outCur] == d.text && r.prev == o.prev
    ensures o.prev.Name? ==> r.out[o.prev.at..o.prev.at + o.prev.length] == d.name
  {
    if o.prev.Name? {
      SliceKept(o.out, o.outCur, r.out, r.outCur, d.text, d.text, o.prev.at, o.prev.at + o.prev.length);
    }
  }

  // ----- the final NUL ---------------------------------------------------------------

  lemma PutTerminates(o: Output, c: Chars)
    requires o.append && c.Length() > 0 && !MaybeAppendWithLength(o, c).overflowed
    ensures Terminated(MaybeAppendWithLength(o, c)) || |o.out| <= MaybeAppendWithLength(o, c).outCur
  {
  }

  lemma HoldsCursor(o: Output, d: Ideal)
    requires Holds(o, d) && |d.text| + 3 <= |o.out|
    ensures o.outCur == |d.text| && !o.overflowed && (o.prev.NoName? <==> d.name == "")
    ensures o.prev.Name? ==> o.prev.length == |d.name|
  {
  }

  // Cancelling a separator puts the NUL where the separator began.
  lemma {:induction false} RetractTerminates(u: Trace, o: Output, d: Ideal)
    requires Settled(u) && Sane(u) && Holds(o, d) && |d.text| + 3 <= |o.out| && d.nest >= 1 && d.append
    ensures Terminated(Exec(Retract(u), o))
  {
    hide MaybeAppendWithLength, Agrees, SameStart;
    var p := MaybeAppendSeparator(o);
    SeparatorAt(o, d);
    ExecFrame(Separate, o);
    ExecFrame(u, p);
    SettledRestores(u, p);
  }

  // A trace that ends by printing leaves a NUL behind the text in every buffer with three
  // bytes to spare, also when abandoned alternatives overflowed it.
  lemma {:induction false} EndsWithNul(t: Trace, o: Output, d: Ideal)
    requires Sane(t) && Holds(o, d) && Ends(t, d) && |Meaning(t, d).text| + 3 <= |o.out|
    ensures Terminated(Exec(t, o)) && Exec(t, o).outCur == |Meaning(t, d).text|
  {
    hide MaybeAppendWithLength, MaybeCancelLastSeparator, Agrees, SameStart;
    ExecHolds(t, o, d);
    ExecFrame(t, o);
    HoldsCursor(Exec(t, o), Meaning(t, d));
    MeaningExtends(t, d);
    match t
    case Put(s) => PutTerminates(o, Text(s));
    case PutPrevName =>
      HoldsCursor(o, d);
      PutTerminates(o, InOutput(o.prev.at, o.prev.length));
    case Then(first, rest) =>
      var p, e := Exec(first, o), Meaning(first, d);
      ExecHolds(first, o, d);
      ExecFrame(first, o);
      if Ends(rest, e) {
        EndsWithNul(rest, p, e);
      } else {
        SilentDoesNothing(rest, p, e, 0);
        EndsWithNul(first, o, d);
      }
    case Nested(u) =>
      FieldsHold(o, d, 0, o.append);
      EndsWithNul(u, o.(nest := 0), d.(nest := 0));
    case Retract(u) => RetractTerminates(u, o, d);
  }

  // ----- the answer -----------------------------------------------------------------

  // The last three characters, for which a dropped separator may make a difference: the
  // space that keeps two '<' apart.
  predicate EndsSpaced(text: string)
  {
    |text| >= 3 && text[|text| - 3..] == "< <"
  }

  // As long as nothing overflowed the cursor counts the characters of the ideal text, also
  // in the last three bytes; the name remembered is as long as the ideal one.
  ghost predicate Counts(o: Output, d: Ideal)
  {
    !o.overflowed && |o.out| < |d.text| + 3 ==>
      && |d.name| == (match o.prev case NoName => 0 case Name(_, length) => length)
      && (|| (o.outCur == |d.text| && (d.text == "" || |d.text| < |o.out|))
          || (o.outCur == |o.out| - 1 && |d.text| == |o.out| && EndsSpaced(d.text)))
  }

  // What is appended there without overflow is one character, without a space.
  lemma PutOne(o: Output, c: Chars)
    requires o.WF() && !o.overflowed && o.append && c.Length() > 0 && |o.out| < o.outCur + 3
    requires !MaybeAppendWithLength(o, c).overflowed
    ensures var r := MaybeAppendWithLength(o, c);
      && c.Length() == 1 && r.outCur == o.outCur + 1 && r.outCur + 1 == |o.out|
      && (r.prev == o.prev || r.prev == Name(o.outCur, 1))
      && ((IsAlpha(c.Read(0, o.out)) || c.Read(0, o.out) == '_') <==> r.prev == Name(o.outCur, 1))
  {
    assert !SpaceBefore(o, c).overflowed;
  }

  lemma PutCountsBelow(o: Output, d: Ideal, c: Chars, s: string)
    requires Holds(o, d) && |d.text| + 3 <= |o.out| && c.Length() == |s|
    requires c.InOutput? ==> c.at + c.length <= o.outCur
    requires forall k :: 0 <= k < |s| ==> c.Read(k, o.out) == s[k]
    ensures Counts(MaybeAppendWithLength(o, c), Say(d, s))
  {
    hide MaybeAppendWithLength, Say;
    PutForgets(o, c, false);
    AppendAgrees(o.(lost := false), d, c, s);
  }

  lemma PutCountsAbove(o: Output, d: Ideal, c: Chars, s: string)
    requires o.WF() && Counts(o, d) && |o.out| < |d.text| + 3 && c.Length() == |s| && o.append == d.append
    requires if c.Text? then c.s == s else s == d.name && o.prev.Name?
    ensures Counts(MaybeAppendWithLength(o, c), Say(d, s))
  {
    var r := MaybeAppendWithLength(o, c);
    if !r.overflowed && o.append && s != "" {
      assert !o.overflowed by {
        PutFrame(o, c);
      }
      PutOne(o, c);
      assert |s| == 1 && o.outCur == |d.text| == |o.out| - 2;
      if s[0] == '<' && d.text != "" && d.text[|d.text| - 1] == '<' {
        assert s == "<" && Say(d, s).text[|d.text| - 1..] == "< <";
      }
    }
  }

  lemma PutCounts(o: Output, d: Ideal, c: Chars, s: string)
    requires Holds(o, d) && Counts(o, d) && c.Length() == |s|
    requires |d.text| + 3 <= |o.out| ==>
               && (c.InOutput? ==> c.at + c.length <= o.outCur)
               && forall k :: 0 <= k < |s| ==> c.Read(k, o.out) == s[k]
    requires if c.Text? then c.s == s else s == d.name && o.prev.Name?
    ensures Counts(MaybeAppendWithLength(o, c), Say(d, s))
  {
    if |d.text| + 3 <= |o.out| {
      PutCountsBelow(o, d, c, s);
    } else {
      PutCountsAbove(o, d, c, s);
    }
  }

  lemma PrevNameCounts(o: Output, d: Ideal)
    requires Holds(o, d) && Counts(o, d) && !MaybeAppendPrevName(o).overflowed
    ensures Counts(MaybeAppendPrevName(o), Say(d, d.name))
  {
    match o.prev
    case NoName =>
      assert d.name == "" by {
        assert |d.text| + 3 <= |o.out| ==> Agrees(o.(lost := false), d);
      }
    case Name(at, length) =>
      PutFrame(o, InOutput(at, length));
      NameInOutput(o, d);
      PutCounts(o, d, InOutput(at, length), d.name);
  }

  // Where the text is whole, the name remembered stands in it.
  lemma NameInOutput(o: Output, d: Ideal)
    requires Holds(o, d) && Counts(o, d) && !o.overflowed && o.prev.Name?
    ensures o.prev.length == |d.name|
    ensures |d.text| + 3 <= |o.out| ==>
              && o.prev.at + o.prev.length <= o.outCur
              && forall k :: 0 <= k < |d.name| ==> InOutput(o.prev.at, o.prev.length).Read(k, o.out) == d.name[k]
  {
    if |d.text| + 3 <= |o.out| {
      forall k | 0 <= k < o.prev.length
        ensures InOutput(o.prev.at, o.prev.length).Read(k, o.out) == d.name[k]
      {
        assert o.out[o.prev.at..o.prev.at + o.prev.length][k] == d.name[k];
      }
    }
  }

  lemma SeparatorCounts(o: Output, d: Ideal)
    requires Holds(o, d) && Counts(o, d)
    ensures Counts(MaybeAppendSeparator(o), Separated(d))
  {
    if o.nest >= 1 {
      PutCounts(o, d, Text("::"), "::");
    }
  }

  lemma TextCounts(o: Output, d: Ideal, s: string)
    requires Holds(o, d) && Counts(o, d)
    ensures Counts(MaybeAppend(o, s), Say(d, s))
  {
    PutCounts(o, d, Text(s), s);
  }

  lemma RetractCounts(u: Trace, o: Output, d: Ideal)
    requires Settled(u) && Holds(o, d) && Counts(o, d)
    ensures Counts(Exec(Retract(u), o), d)
  {
    var p := MaybeAppendSeparator(o);
    ExecFrame(Separate, o);
    ExecFrame(u, p);
    SettledRestores(u, p);
    if |o.out| < |d.text| + 3 && o.nest >= 1 && o.append && !p.overflowed {
      PutOne(o, Text("::"));
    }
  }

  // The level and the append flag do not count.
  lemma FieldsCount(o: Output, d: Ideal, p: Output, e: Ideal)
    requires Counts(o, d) && p == o.(nest := p.nest, append := p.append) && e == d.(nest := e.nest, append := e.append)
    ensures Counts(p, e)
  {
  }

  lemma LastNameCounts(o: Output, d: Ideal)
    requires Holds(o, d) && Counts(o, d)
    ensures Counts(MaybeAppendPrevName(o), Say(d, d.name))
  {
    hide MaybeAppendPrevName;
    if !MaybeAppendPrevName(o).overflowed {
      PrevNameCounts(o, d);
    }
  }

  lemma AbandonCounts(u: Trace, o: Output, d: Ideal)
    requires Counts(o, d)
    ensures Counts(Exec(u, o).Restore(o), d)
  {
    ExecFrame(u, o);
  }

  lemma {:induction false} ExecCounts(t: Trace, o: Output, d: Ideal)
    requires Sane(t) && Holds(o, d) && Counts(o, d)
    ensures Counts(Exec(t, o), Meaning(t, d))
    decreases t, 0
  {
    hide MaybeAppend, MaybeAppendPrevName, MaybeAppendSeparator, MaybeCancelLastSeparator, Holds, Counts, Say,
         Separated;
    match t
    case Nil =>
    case Deeper => FieldsCount(o, d, MaybeIncreaseNestLevel(o), Meaning(Deeper, d));
    case Put(s) => TextCounts(o, d, s);
    case PutPrevName => LastNameCounts(o, d);
    case Separate => SeparatorCounts(o, d);
    case Then(first, rest) =>
      ExecHolds(first, o, d);
      ExecCounts(first, o, d);
      ExecCounts(rest, Exec(first, o), Meaning(first, d));
    case Abandon(u) => AbandonCounts(u, o, d);
    case Quiet(u) => QuietCounts(u, o, d);
    case Nested(u) => NestedCounts(u, o, d);
    case Retract(u) => RetractCounts(u, o, d);
  }

  lemma {:induction false} QuietCounts(u: Trace, o: Output, d: Ideal)
    requires Sane(u) && Holds(o, d) && Counts(o, d)
    ensures Counts(Exec(Quiet(u), o), Meaning(Quiet(u), d))
    decreases u, 1
  {
    hide Counts, Agrees;
    var p, e := o.(append := false), d.(append := false);
    FieldsHold(o, d, o.nest, false);
    FieldsCount(o, d, p, e);
    ExecCounts(u, p, e);
    FieldsCount(Exec(u, p), Meaning(u, e), Exec(Quiet(u), o), Meaning(Quiet(u), d));
  }

  lemma {:induction false} NestedCounts(u: Trace, o: Output, d: Ideal)
    requires Sane(u) && Holds(o, d) && Counts(o, d)
    ensures Counts(Exec(Nested(u), o), Meaning(Nested(u), d))
    decreases u, 1
  {
    hide Counts, Agrees;
    var p, e := o.(nest := 0), d.(nest := 0);
    FieldsHold(o, d, 0, o.append);
    FieldsCount(o, d, p, e);
    ExecCounts(u, p, e);
    FieldsCount(Exec(u, p), Meaning(u, e), Exec(Nested(u), o), Meaning(Nested(u), d));
  }
}
