// Consequences for whole runs of the demangler.
module DemanglerTheorems {
  import opened CStrings
  import opened Decimals
  import opened Options
  import opened Output
  import opened Trace
  import opened TraceTheorems
  import opened Outcomes
  import D = Demangler
  import G = Grammar
  import R = Refusals

  // ----- termination -----------------------------------------------------------------

  // Without an 'n' directly in front of a digit no source name is negative, so no
  // cursor ever moves backwards and every call terminates.
  lemma NoNegativeNumbers(m: string)
    requires forall k :: 0 <= k < |m| - 1 ==> !(m[k] == 'n' && IsDigit(m[k + 1]))
    ensures G.Tame(m) && !G.TopLevelMangledName(m).StepsBack?
  {
    forall k: nat | k <= |m|
      ensures !G.SourceName(m, k).StepsBack?
    {
      var start := G.NumberStart(m, k);
      if start > k && start < |m| {
        assert m[start - 1] == 'n' && !IsDigit(m[start]);
      }
    }
  }

  // ----- backtracking --------------------------------------------------------------------

  // What the discipline of a parsing function means for the output half of the state: on
  // success the nesting level and the append flag come out as they went in; on failure
  // every field does, and only bytes of the buffer may differ.
  lemma BacktrackingDiscipline(m: string, i: nat, p: G.Parse, o: Output)
    requires (G.Steps(m, i, p) || G.Drifts(m, i, p)) && !p.StepsBack?
    ensures Exec(p.t, o).nest == o.nest && Exec(p.t, o).append == o.append
    ensures p.Reject? ==> Exec(p.t, o) == Exec(p.t, o).Restore(o)
    ensures o.WF() ==> Exec(p.t, o).WF()
  {
    ExecFrame(p.t, o);
    if p.Reject? {
      SettledRestores(p.t, o);
    }
    if o.WF() {
      ExecSound(p.t, o);
    }
  }

  // Not every parsing function keeps the cursor when it fails.  These are the exceptions,
  // and the inputs for which a failure does keep it.
  lemma FailuresThatMoveTheCursor(m: string, i: nat)
    requires i <= |m|
    ensures G.Number(m, i).Reject? ==> (G.Number(m, i).next == i <==> At(m, i) != 'n')
    ensures G.NVOffset(m, i).Reject? ==> (G.NVOffset(m, i).next == i <==> At(m, i) != 'n')
    ensures G.AbiTag(m, i).Reject? ==> (G.AbiTag(m, i).next == i <==> At(m, i) != 'B')
    ensures G.OneOrMore(G.FAbiTag, m, i).Reject? ==> (G.OneOrMore(G.FAbiTag, m, i).next == i <==> At(m, i) != 'B')
    ensures G.MangledName(m, i).Reject? ==>
              (G.MangledName(m, i).next == i <==> !(At(m, i) == '_' && At(m, i + 1) == 'Z'))
  {
  }

  // What that leads to: a B that starts no tag is swallowed behind tags.
  lemma StrayTagSwallowed(m: string, i: nat)
    requires i <= |m| && At(m, i) == 'B' && G.AbiTag(m, i).Reject?
    ensures G.ZeroOrMore(G.FAbiTag, m, i).Accept? && G.ZeroOrMore(G.FAbiTag, m, i).next == i + 1
  {
  }

  // Comes a turn of the loop over a prefix, entered at i, to its source name?
  predicate ComesToSourceName(m: string, i: nat)
  {
    && i <= |m| && G.TemplateParam(m, i).Reject? && G.Substitution(m, i).Reject?
    && G.OperatorName(m, i).Reject? && G.CtorDtorName(m, i).Reject?
  }

  // One-letter source names.
  lemma ShortName(m: string, i: nat)
    requires i + 1 < |m| && m[i] == '1' && !IsDigit(m[i + 1])
    ensures G.SourceName(m, i).Accept? && G.SourceName(m, i).next == i + 2 && ComesToSourceName(m, i)
  {
    RunEndIs(m, i, i + 1, IsDigit);
    assert ValueAt(m, i, i + 1) == 1;
  }

  // A short name with one tag and a stray B behind it, at the end of the input.
  lemma NameWithStrayTag(m: string, i: nat)
    requires i + 6 == |m| && m[i] == '1' && !IsDigit(m[i + 1]) && m[i + 2] == 'B' && m[i + 3] == '1'
    requires !IsDigit(m[i + 4]) && m[i + 5] == 'B'
    ensures G.UnqualifiedName(m, i).Accept? && G.UnqualifiedName(m, i).next == |m|
  {
    hide G.OperatorName, G.CtorDtorName, G.Substitution, G.TemplateParam, ComesToSourceName;
    ShortName(m, i);
    ShortName(m, i + 3);
    assert G.AbiTag(m, i + 2).Accept? && G.AbiTag(m, i + 2).next == i + 5;
    assert G.SourceName(m, i + 6).Reject?;
    assert G.AbiTag(m, i + 5).Reject?;
    StrayTagSwallowed(m, i + 5);
    assert G.OneOrMore(G.FAbiTag, m, i + 2).Accept? && G.OneOrMore(G.FAbiTag, m, i + 2).next == i + 6;
    assert G.AbiTags(m, i + 2).Accept? && G.AbiTags(m, i + 2).next == i + 6;
  }

  lemma StrayTagAccepted(m: string)
    requires m == "_Z1aB1bB"
    ensures G.TopLevelMangledName(m).Accept?
  {
    NameWithStrayTag(m, 2);
    NameWithoutParameters(m, 2);
    assert G.MangledName(m, 0).Accept? && G.MangledName(m, 0).next == 8;
  }

  // An unqualified name at the end of the input is an encoding.
  lemma NameWithoutParameters(m: string, i: nat)
    requires i < |m| && IsDigit(m[i]) && G.UnqualifiedName(m, i).Accept? && G.UnqualifiedName(m, i).next == |m|
    ensures G.Encoding(m, i).Accept? && G.Encoding(m, i).next == |m|
  {
    assert G.NestedName(m, i).Reject?;
    assert G.LocalEntity(m, i).Reject? && G.LocalString(m, i).Reject? && G.LocalName(m, i).Reject?;
    R.TemplateArgsRefuses(m, |m|);
    assert G.UnscopedTemplateName(m, i) == G.UnscopedName(m, i) == G.UnqualifiedName(m, i);
    assert G.TemplateName(m, i).Reject?;
    assert G.Name(m, i).Accept? && G.Name(m, i).next == |m|;
    R.ParametersRefused(m, |m|);
    assert G.FunctionEncoding(m, i).Reject?;
  }

  lemma TopLevelFailureMovesTheCursor(m: string)
    requires G.TopLevelMangledName(m).Reject?
    ensures G.TopLevelMangledName(m).next == 0 <==> !(At(m, 0) == '_' && At(m, 1) == 'Z')
  {
    FailuresThatMoveTheCursor(m, 0);
  }

  // ----- suppression -------------------------------------------------------------------

  lemma QuietDoesNothing(u: Trace, o: Output)
    requires Level(u)
    ensures Exec(Quiet(u), o) == o
  {
    ExecSuppressed(u, o.(append := false));
    ExecFrame(u, o.(append := false));
  }

  // A successful parameter list prints () and nothing else, whatever is nested in it.
  lemma ParametersPrintParentheses(m: string, i: nat, d: Ideal, o: Output)
    requires i <= |m| && G.BareFunctionType(m, i).Accept?
    ensures Meaning(G.BareFunctionType(m, i).t, d) == Say(d, "()")
    ensures Exec(G.BareFunctionType(m, i).t, o) == MaybeAppend(o, "()")
  {
    var u := G.OneOrMore(G.FType, m, i).t;
    assert G.BareFunctionType(m, i).t == Then(Quiet(u), Put("()"));
    assert Level(Quiet(u));
    QuietMeansNothing(u, d.(append := false));
    QuietDoesNothing(u, o);
  }

  // Successful template arguments print <>, with one space before it behind a '<'.
  lemma ArgumentsPrintBrackets(m: string, i: nat, d: Ideal, o: Output)
    requires i <= |m| && G.TemplateArgs(m, i).Accept?
    ensures Meaning(G.TemplateArgs(m, i).t, d) == Say(d, "<>")
    ensures Exec(G.TemplateArgs(m, i).t, o) == MaybeAppend(o, "<>")
  {
    var a := G.Token(m, i, 'I');
    var b := a.Before(G.OneOrMore(G.FTemplateArg, m, a.next));
    var u := b.Before(G.Token(m, b.next, 'E')).t;
    assert G.TemplateArgs(m, i).t == Then(Quiet(u), Put("<>"));
    assert Level(Quiet(u));
    QuietMeansNothing(u, d.(append := false));
    QuietDoesNothing(u, o);
  }

  // ----- buffers -------------------------------------------------------------------------

  lemma {:induction false} FitsMore(t: Trace, d: Ideal, size: nat, more: nat)
    requires Fits(t, d, size) && size <= more
    ensures Fits(t, d, more)
  {
    match t
    case Then(first, rest) =>
      FitsMore(first, d, size, more);
      FitsMore(rest, Meaning(first, d), size, more);
    case Abandon(u) => FitsMore(u, d, size, more);
    case Quiet(u) => FitsMore(u, d.(append := false), size, more);
    case Nested(u) => FitsMore(u, d.(nest := 0), size, more);
    case Retract(u) => FitsMore(u, Separated(d), size, more);
    case _ =>
  }

  // A larger buffer changes nothing once the smaller one is roomy.
  lemma LargerBufferSameText(m: string, out: string, larger: string)
    requires G.TopLevelMangledName(m).Accept? && Roomy(m, |out|) && |out| <= |larger|
    ensures Demangled(m, out).ok && Demangled(m, larger).ok
    ensures TextOf(m) <= Demangled(m, out).out && TextOf(m) <= Demangled(m, larger).out
  {
    FitsMore(G.TopLevelMangledName(m).t, START, |out|, |larger|);
    DemangledText(m, out);
    DemangledText(m, larger);
  }
}
