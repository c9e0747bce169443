// What a call of Demangle answers and leaves in the buffer, as a function.
module Outcomes {
  import opened CStrings
  import opened Output
  import opened Trace
  import opened TraceTheorems
  import opened SpareRoom
  import G = Grammar

  datatype Outcome = Outcome(ok: bool, out: string)

  // The name is accepted and nothing overflowed on the accepted path.
  function Demangled(m: string, out: string): Outcome
  {
    match G.TopLevelMangledName(m)
    case Accept(_, t) => Outcome(!Exec(t, Initial(out)).overflowed, Exec(t, Initial(out)).out)
    case Reject(_, t) => Outcome(false, Exec(t, Initial(out)).out)
    case StepsBack(_) => Outcome(false, out)
  }

  // Before anything is printed.
  const START := Ideal("", "", -1, true)

  // The text of an accepted name: no buffer, no abandoned alternatives.
  function TextOf(m: string): string
    requires G.TopLevelMangledName(m).Accept?
  {
    Meaning(G.TopLevelMangledName(m).t, START).text
  }

  // Everything the parser writes on the way, and a NUL, fits into size bytes.
  predicate Roomy(m: string, size: nat)
    requires G.TopLevelMangledName(m).Accept?
  {
    Fits(G.TopLevelMangledName(m).t, START, size)
  }

  // For every accepted name: in a roomy buffer Demangle succeeds and leaves exactly
  // the text, untouched by the alternatives it tried and gave up; in any other
  // buffer some character was dropped.
  lemma DemangledText(m: string, out: string)
    requires G.TopLevelMangledName(m).Accept?
    ensures Roomy(m, |out|) <==> !Exec(G.TopLevelMangledName(m).t, Initial(out)).Dropped()
    ensures Roomy(m, |out|) ==>
              var r := Demangled(m, out);
              r.ok && |r.out| == |out| && TextOf(m) <= r.out && (TextOf(m) != "" ==> |TextOf(m)| < |out|)
  {
    var t := G.TopLevelMangledName(m).t;
    ExecAgrees(t, Initial(out), START);
    ExecFrame(t, Initial(out));
  }

  // The answer is false for every buffer that does not hold the text and a NUL.  Only a text
  // that ends in "< <" may be answered true in a buffer as long as the text.
  predicate TooSmall(text: string, size: nat)
  {
    text != "" && size <= |text| && !(size == |text| && EndsSpaced(text))
  }

  lemma TooSmallRefused(m: string, out: string)
    requires G.TopLevelMangledName(m).Accept? && TooSmall(TextOf(m), |out|)
    ensures !Demangled(m, out).ok
  {
    var t := G.TopLevelMangledName(m).t;
    ExecHolds(t, Initial(out), START);
    ExecCounts(t, Initial(out), START);
    ExecFrame(t, Initial(out));
  }

  // Traces do make that exception: an abandoned alternative drops a separator, its
  // cancellation overwrites the first '<', and the second one gets no space.
  lemma SpaceLost(out: string) returns (t: Trace)
    requires |out| == 3
    ensures Sane(t) && Meaning(t, START).text == "< <" && !Exec(t, Initial(out)).overflowed
  {
    var u := Nested(Then(Deeper, Retract(Nil)));
    t := Then(Put("<"), Then(Abandon(u), Put("<")));
    var o := Exec(Put("<"), Initial(out));
    assert o.outCur == 1 && !o.overflowed && o.nest == -1 && o.append && |o.out| == 3;
    SeparatorDropped(o, u);
    assert Exec(t, Initial(out)) == Exec(Put("<"), Exec(Abandon(u), o));
    assert Meaning(Put("<"), Meaning(Put("<"), START)).text == "< <";
  }

  lemma SeparatorDropped(o: Output, u: Trace)
    requires u == Nested(Then(Deeper, Retract(Nil)))
    requires o.outCur == 1 && !o.overflowed && o.nest == -1 && o.append && |o.out| == 3
    ensures Exec(Abandon(u), o) == o.(out := Exec(Abandon(u), o).out, lost := Exec(Abandon(u), o).lost)
    ensures |Exec(Abandon(u), o).out| == 3 && Exec(Abandon(u), o).out[0] == '\0'
  {
    ExecFrame(u, o);
    var a := o.(nest := 1);
    var p := MaybeAppendSeparator(a);
    AppendLoopFills(a, Text("::"), 0, "::");
    assert p == Append(a, Text("::")) && p.outCur == 2;
    assert Exec(Retract(Nil), a) == MaybeCancelLastSeparator(p);
    assert Exec(Then(Deeper, Retract(Nil)), o.(nest := 0)) == Exec(Retract(Nil), a);
  }

  // For every accepted name and every buffer with three bytes to spare behind the text,
  // however long the alternatives that were tried: Demangle succeeds and leaves the text.
  // In a smaller buffer all bytes but the last three are still those of the text.
  lemma ThreeBytesToSpare(m: string, out: string)
    requires G.TopLevelMangledName(m).Accept?
    ensures var r, text := Demangled(m, out), TextOf(m);
            && |r.out| == |out|
            && (|text| + 3 <= |out| ==> r.ok && text <= r.out)
            && (|out| < |text| + 3 ==> forall k :: 0 <= k < |out| - 3 ==> r.out[k] == text[k])
  {
    var t := G.TopLevelMangledName(m).t;
    ExecHolds(t, Initial(out), START);
    ExecFrame(t, Initial(out));
  }
}
