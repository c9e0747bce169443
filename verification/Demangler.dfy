// The demangler itself: a State that the parsing functions update in place.
// Every method is proved against the grammar: its answer and the cursor it
// leaves are the grammar's, and it does to the output what the trace says.
module Demangler {
  import opened CStrings
  import opened Output
  import O = Output
  import opened Trace
  import opened CloneSuffix
  import opened Decimals
  import opened Outcomes
  import G = Grammar

  // State copy = *state, without the constant pointers.
  datatype Copy = Copy(cur: nat, outCur: nat, prevName: PrevName, nestLevel: int, append: bool, overflowed: bool)

  // Outputs whose cursors are in place.
  type Sound = o: Output | o.WF() ghost witness Initial("")

  class State {
    const mangled: CString
    const out: array<char>
    var mangledCur: nat
    var outCur: nat
    var prevName: PrevName
    var nestLevel: int
    var append: bool
    var overflowed: bool
    ghost var o: Sound  // the output half of the state as a value

    ghost function Fields(): Output
      reads this, out
    {
      Output(outCur, prevName, nestLevel, append, overflowed, out[..], o.lost)
    }

    ghost predicate Valid()
      reads this, out
    {
      mangledCur <= |mangled| && o == Fields()
    }

    // What a parsing function reports after starting with output o, p being its parse.
    ghost predicate Ran(ok: bool, p: G.Parse, before: Output)
      reads this, out
    {
      Valid() && !p.StepsBack? && ok == p.Accept? && mangledCur == p.next && o == Exec(p.t, before)
    }

    // The same for the functions that are followed where a source name of negative length
    // leads, as long as that is inside the string.
    ghost predicate RanOrBack(ok: bool, p: G.Parse, before: Output)
      reads this, out
    {
      if p.StepsBack? then ok && Valid() && mangledCur == p.cursor && o == before else Ran(ok, p, before)
    }

    // InitState
    constructor (mangled: CString, out: array<char>)
      ensures this.mangled == mangled && this.out == out && mangledCur == 0
      ensures Valid() && o == Initial(out[..])
    {
      this.mangled, this.out := mangled, out;
      mangledCur, outCur, prevName := 0, 0, NoName;
      nestLevel, append, overflowed := -1, true, false;
      o := Initial(out[..]);
    }

    function Save(): Copy
      reads this
    {
      Copy(mangledCur, outCur, prevName, nestLevel, append, overflowed)
    }

    // *state = copy, where copy was saved when the output was saved.
    method Restore(copy: Copy, ghost saved: Sound)
      requires Valid() && copy.cur <= |mangled| && |saved.out| == out.Length
      requires copy == Copy(copy.cur, saved.outCur, saved.prev, saved.nest, saved.append, saved.overflowed)
      modifies this
      ensures Valid() && mangledCur == copy.cur && o == old(o).Restore(saved)
    {
      o := o.Restore(saved);
      mangledCur, outCur, prevName := copy.cur, copy.outCur, copy.prevName;
      nestLevel, append, overflowed := copy.nestLevel, copy.append, copy.overflowed;
    }

    // ----- output ------------------------------------------------------------------

    // *out_cur++ = str[i]
    method PutChar(c: Chars, i: nat)
      requires i < c.Length() && outCur + 1 < out.Length
      modifies `outCur, out
      ensures outCur == old(outCur) + 1 && AppendLoop(Fields(), c, i + 1) == AppendLoop(old(Fields()), c, i)
    {
      out[outCur] := c.Read(i, out[..]);
      outCur := outCur + 1;
    }

    // Leaves o behind; MaybeAppendWithLength brings it up to date.
    method Append(c: Chars)
      requires c.Length() > 0 && (outCur == 0 || outCur < out.Length)
      modifies `outCur, `overflowed, out
      ensures Fields() == O.Append(old(Fields()), c)
    {
      hide Chars.Read;
      var i, length := 0, c.Length();
      while i < length
        invariant i <= length
        invariant overflowed ==> old(overflowed)
        invariant outCur == 0 || outCur < out.Length
        invariant i > 0 ==> outCur < out.Length
        invariant AppendLoop(Fields(), c, i) == AppendLoop(old(Fields()), c, 0)
      {
        if outCur + 1 < out.Length {  // one more for the NUL
          PutChar(c, i);
        } else {
          overflowed := true;
          break;
        }
        i := i + 1;
      }
      if !overflowed {
        out[outCur] := '\0';
      }
    }

    method MaybeAppendWithLength(c: Chars)
      requires Valid()
      modifies this, out
      ensures Valid() && mangledCur == old(mangledCur) && o == O.MaybeAppendWithLength(old(o), c)
    {
      hide O.Append;
      if append && c.Length() > 0 {
        if c.Read(0, out[..]) == '<' && 0 < outCur && out[outCur - 1] == '<' {
          Append(Text(" "));
        }
        assert Fields() == SpaceBefore(old(o), c);
        var first := c.Read(0, out[..]);
        if IsAlpha(first) || first == '_' {
          prevName := Name(outCur, c.Length());
        }
        assert Fields() == Remember(SpaceBefore(old(o), c), c);
        Append(c);
        o := Fields();
      }
    }

    method MaybeAppend(str: string)
      requires Valid()
      modifies this, out
      ensures Valid() && mangledCur == old(mangledCur) && o == Exec(Put(str), old(o))
    {
      if append {
        MaybeAppendWithLength(Text(str));
      }
    }

    // MaybeAppendWithLength(state, prev_name, prev_name_length)
    method MaybeAppendPrevName()
      requires Valid()
      modifies this, out
      ensures Valid() && mangledCur == old(mangledCur) && o == Exec(PutPrevName, old(o))
    {
      match prevName
      case NoName =>
      case Name(at, length) => MaybeAppendWithLength(InOutput(at, length));
    }

    method MaybeIncreaseNestLevel()
      requires Valid()
      modifies this
      ensures Valid() && mangledCur == old(mangledCur) && o == Exec(Deeper, old(o))
    {
      if nestLevel > -1 {
        nestLevel := nestLevel + 1;
        o := Fields();
      }
    }

    method MaybeAppendSeparator()
      requires Valid()
      modifies this, out
      ensures Valid() && mangledCur == old(mangledCur) && o == Exec(Separate, old(o))
    {
      if nestLevel >= 1 {
        MaybeAppend("::");
      }
    }

    // before is the output just before the separator was appended.
    method MaybeCancelLastSeparator(ghost before: Sound)
      requires Valid() && o == o.Restore(Exec(Separate, before))
      modifies this, out
      ensures Valid() && mangledCur == old(mangledCur) && o == O.MaybeCancelLastSeparator(old(o))
    {
      if nestLevel >= 1 && append && 2 <= outCur {
        outCur := outCur - 2;
        out[outCur] := '\0';
        o := Fields();
      }
    }

    method EnterNestedName()
      requires Valid()
      modifies this
      ensures Valid() && mangledCur == old(mangledCur) && o == old(o).(nest := 0)
    {
      nestLevel := 0;
      o := Fields();
    }

    method LeaveNestedName(prevValue: int)
      requires Valid() && prevValue >= -1
      modifies this
      ensures Valid() && mangledCur == old(mangledCur) && o == old(o).(nest := prevValue)
    {
      nestLevel := prevValue;
      o := Fields();
    }

    method DisableAppend()
      requires Valid()
      modifies this
      ensures Valid() && mangledCur == old(mangledCur) && o == old(o).(append := false)
    {
      append := false;
      o := Fields();
    }

    method RestoreAppend(prevValue: bool)
      requires Valid()
      modifies this
      ensures Valid() && mangledCur == old(mangledCur) && o == old(o).(append := prevValue)
    {
      append := prevValue;
      o := Fields();
    }

    // ----- characters -----------------------------------------------------------------

    method AtLeastNumCharsRemaining(n: int) returns (r: bool)
      requires Valid()
      ensures r == Remaining(mangled, mangledCur, n)
    {
      var i := 0;
      while i < n
        invariant 0 <= i && (i <= n || i == 0) && mangledCur + i <= |mangled|
      {
        if At(mangled, mangledCur + i) == '\0' {
          return false;
        }
        i := i + 1;
      }
      return true;
    }

    method StrPrefix(prefix: CString) returns (r: bool)
      requires Valid()
      ensures r == HasPrefix(mangled, mangledCur, prefix)
    {
      var i := 0;
      while At(mangled, mangledCur + i) != '\0' && At(prefix, i) != '\0' &&
            At(mangled, mangledCur + i) == At(prefix, i)
        invariant i <= |prefix| && mangledCur + i <= |mangled|
        invariant HasPrefix(mangled, mangledCur, prefix) == HasPrefix(mangled, mangledCur + i, prefix[i..])
        decreases |prefix| - i
      {
        assert prefix[i..][1..] == prefix[i + 1..];
        i := i + 1;
      }
      r := At(prefix, i) == '\0';
    }

    // ----- tokens -----------------------------------------------------------------------

    method ParseOneCharToken(c: char) returns (ok: bool)
      requires Valid() && c != '\0'
      modifies `mangledCur
      ensures Ran(ok, G.Token(mangled, old(mangledCur), c), old(o))
    {
      ok := At(mangled, mangledCur) == c;
      if ok {
        mangledCur := mangledCur + 1;
      }
    }

    method ParseTwoCharToken(c: char, d: char) returns (ok: bool)
      requires Valid() && c != '\0' && d != '\0'
      modifies `mangledCur
      ensures Ran(ok, G.TwoTokens(mangled, old(mangledCur), c, d), old(o))
    {
      ok := At(mangled, mangledCur) == c && At(mangled, mangledCur + 1) == d;
      if ok {
        mangledCur := mangledCur + 2;
      }
    }

    method ParseCharClass(cls: CString) returns (ok: bool)
      requires Valid()
      modifies `mangledCur
      ensures Ran(ok, G.CharClass(mangled, old(mangledCur), cls), old(o))
    {
      var p := 0;
      while p < |cls|
        invariant p <= |cls| && At(mangled, mangledCur) !in cls[..p]
        invariant mangledCur == old(mangledCur) && o == old(o)
      {
        if At(mangled, mangledCur) == cls[p] {
          mangledCur := mangledCur + 1;
          return true;
        }
        p := p + 1;
      }
      return false;
    }

    // With the number's value, which is meaningful on success.
    method ParseNumber() returns (ok: bool, number: int)
      requires Valid()
      modifies `mangledCur
      ensures Ran(ok, G.Number(mangled, old(mangledCur)), old(o))
      ensures ok ==> number == G.NumberValue(mangled, old(mangledCur))
    {
      var sign := 1;
      var n := ParseOneCharToken('n');
      if n {
        sign := -1;
      }
      var p := mangledCur;
      number := 0;
      while At(mangled, p) != '\0'
        invariant mangledCur <= p <= |mangled|
        invariant RunEnd(mangled, mangledCur, IsDigit) == RunEnd(mangled, p, IsDigit)
        invariant forall k :: mangledCur <= k < p ==> IsDigit(mangled[k])
        invariant number == ValueAt(mangled, mangledCur, p)
        decreases |mangled| - p
      {
        var c := At(mangled, p);
        if !IsDigit(c) {
          break;
        }
        number := number * 10 + (c as int - '0' as int);
        p := p + 1;
      }
      ok := p != mangledCur;
      mangledCur := p;
      number := number * sign;
    }

    // ParseNumber(state, NULL)
    method SkipNumber() returns (ok: bool)
      requires Valid()
      modifies `mangledCur
      ensures Ran(ok, G.Number(mangled, old(mangledCur)), old(o))
    {
      var number: int;
      ok, number := ParseNumber();
    }

    // The maximal run of characters of one kind, for float literals and sequence ids.
    method ParseCharRun(c: char -> bool) returns (ok: bool)
      requires Valid()
      modifies `mangledCur
      ensures Ran(ok, G.CharRun(mangled, old(mangledCur), c), old(o))
    {
      var p := mangledCur;
      while At(mangled, p) != '\0'
        invariant mangledCur <= p <= |mangled|
        invariant RunEnd(mangled, mangledCur, c) == RunEnd(mangled, p, c)
        decreases |mangled| - p
      {
        if !c(At(mangled, p)) {
          break;
        }
        p := p + 1;
      }
      ok := p != mangledCur;
      mangledCur := p;
    }

    method ParseFloatNumber() returns (ok: bool)
      requires Valid()
      modifies `mangledCur
      ensures Ran(ok, G.CharRun(mangled, old(mangledCur), IsFloatChar), old(o))
    {
      ok := ParseCharRun(IsFloatChar);
    }

    method ParseSeqId() returns (ok: bool)
      requires Valid()
      modifies `mangledCur
      ensures Ran(ok, G.CharRun(mangled, old(mangledCur), IsSeqIdChar), old(o))
    {
      ok := ParseCharRun(IsSeqIdChar);
    }

    method IdentifierIsAnonymousNamespace(length: int) returns (r: bool)
      requires Valid()
      ensures r == G.IsAnonymousNamespace(mangled, mangledCur, length)
    {
      r := StrPrefix(G.ANON_PREFIX);
      r := length > |G.ANON_PREFIX| && r;
    }

    // Printing a text with its length given is printing it.
    static lemma PutIs(s: string, o: Output)
      ensures Exec(Put(s), o) == O.MaybeAppendWithLength(o, Text(s))
      ensures s == "" ==> Exec(Put(s), o) == o
    {
    }

    // Prints an identifier, or what stands for an anonymous namespace.
    method PrintIdentifier(length: int)
      requires Valid() && Remaining(mangled, mangledCur, length)
      modifies this, out
      ensures Valid() && mangledCur == old(mangledCur)
      ensures o == Exec(Put(G.IdentifierText(mangled, mangledCur, length)), old(o))
    {
      hide Exec, HasPrefix;
      var anonymous := IdentifierIsAnonymousNamespace(length);
      if anonymous {
        MaybeAppend("(anonymous namespace)");
      } else if length > 0 {
        var text := mangled[mangledCur..mangledCur + length];
        PutIs(text, o);
        MaybeAppendWithLength(Text(text));
      } else {
        PutIs("", o);
      }
    }

    // The caller sees to it that the cursor stays inside the string.
    method ParseIdentifier(length: int) returns (ok: bool)
      requires Valid()
      requires length != -1 && Remaining(mangled, mangledCur, length) ==> 0 <= mangledCur + length
      modifies this, out
      ensures Valid() && ok == (length != -1 && Remaining(mangled, old(mangledCur), length))
      ensures ok ==>
                && mangledCur == old(mangledCur) + length
                && o == Exec(Put(G.IdentifierText(mangled, old(mangledCur), length)), old(o))
      ensures !ok ==> mangledCur == old(mangledCur) && o == old(o)
    {
      var enough := AtLeastNumCharsRemaining(length);
      if length == -1 || !enough {
        return false;
      }
      PrintIdentifier(length);
      mangledCur := mangledCur + length;
      return true;
    }

    // A length that leads in front of the whole name is nobody's cursor; any other is taken,
    // even one that steps back.
    method ParseSourceName() returns (ok: bool)
      requires Valid()
      requires G.SourceName(mangled, mangledCur).StepsBack? ==> 0 <= G.SourceName(mangled, mangledCur).cursor
      modifies this, out
      ensures RanOrBack(ok, G.SourceName(mangled, old(mangledCur)), old(o))
      decreases |mangled| - mangledCur, 0
    {
      ExecEquations();
      var copy := Save();
      ghost var o0 := o;
      var length: int;
      ok, length := ParseNumber();
      if ok {
        ok := ParseIdentifier(length);
      }
      if !ok { Restore(copy, o0); }
    }

    method ParseAbiTag() returns (ok: bool)
      requires Valid()
      requires G.AbiTag(mangled, mangledCur).StepsBack? ==> 0 <= G.AbiTag(mangled, mangledCur).cursor
      modifies this, out
      ensures RanOrBack(ok, G.AbiTag(mangled, old(mangledCur)), old(o))
      decreases |mangled| - mangledCur, 1
    {
      hide Exec;
      ExecEquations();
      ok := ParseOneCharToken('B');
      if ok {
        ok := ParseSourceName();
      }
    }

    method ParseNVOffset() returns (ok: bool)
      requires Valid() && !G.NVOffset(mangled, mangledCur).StepsBack?
      modifies this, out
      ensures Ran(ok, G.NVOffset(mangled, old(mangledCur)), old(o))
      decreases |mangled| - mangledCur, 0
    {
      ok := SkipNumber();
    }

    method ParseVOffset() returns (ok: bool)
      requires Valid() && !G.VOffset(mangled, mangledCur).StepsBack?
      modifies this, out
      ensures Ran(ok, G.VOffset(mangled, old(mangledCur)), old(o))
      decreases |mangled| - mangledCur, 0
    {
      hide Exec;
      ExecEquations();
      var copy := Save();
      ghost var o0 := o;
      ok := SkipNumber();
      if ok { ok := ParseOneCharToken('_'); }
      if ok { ok := SkipNumber(); }
      if !ok { Restore(copy, o0); }
    }

    method ParseHOffset() returns (ok: bool)
      requires Valid() && !G.HOffset(mangled, mangledCur).StepsBack?
      modifies this, out
      ensures Ran(ok, G.HOffset(mangled, old(mangledCur)), old(o))
      decreases |mangled| - mangledCur, 0
    {
      hide Exec;
      ExecEquations();
      var copy := Save();
      ghost var o0 := o;
      ok := ParseOneCharToken('h');
      if ok { ok := ParseNVOffset(); }
      if ok { ok := ParseOneCharToken('_'); }
      if !ok { Restore(copy, o0); }
    }

    method ParseVirtualOffset() returns (ok: bool)
      requires Valid() && !G.VirtualOffset(mangled, mangledCur).StepsBack?
      modifies this, out
      ensures Ran(ok, G.VirtualOffset(mangled, old(mangledCur)), old(o))
      decreases |mangled| - mangledCur, 0
    {
      hide Exec;
      ExecEquations();
      var copy := Save();
      ghost var o0 := o;
      ok := ParseOneCharToken('v');
      if ok { ok := ParseVOffset(); }
      if ok { ok := ParseOneCharToken('_'); }
      if !ok { Restore(copy, o0); }
    }

    method ParseCallOffset() returns (ok: bool)
      requires Valid() && !G.CallOffset(mangled, mangledCur).StepsBack?
      modifies this, out
      ensures Ran(ok, G.CallOffset(mangled, old(mangledCur)), old(o))
      decreases |mangled| - mangledCur, 1
    {
      hide Exec;
      ExecEquations();
      ok := ParseHOffset();
      if ok { return; }
      ok := ParseVirtualOffset();
    }

    method ParseDiscriminator() returns (ok: bool)
      requires Valid() && !G.Discriminator(mangled, mangledCur).StepsBack?
      modifies this, out
      ensures Ran(ok, G.Discriminator(mangled, old(mangledCur)), old(o))
      decreases |mangled| - mangledCur, 0
    {
      hide Exec;
      ExecEquations();
      var copy := Save();
      ghost var o0 := o;
      ok := ParseOneCharToken('_');
      if ok { ok := SkipNumber(); }
      if ok { return; }
      Restore(copy, o0);
    }

    method ParseCtorDtorName() returns (ok: bool)
      requires Valid() && !G.CtorDtorName(mangled, mangledCur).StepsBack?
      modifies this, out
      ensures Ran(ok, G.CtorDtorName(mangled, old(mangledCur)), old(o))
      decreases |mangled| - mangledCur, 0
    {
      hide Exec, G.CharClass;
      ExecEquations();
      var copy := Save();
      ghost var o0 := o;
      ok := ParseOneCharToken('C');
      if ok { ok := ParseCharClass("123"); }
      if ok {
        MaybeAppendPrevName();
        return;
      }
      Restore(copy, o0);
      ok := ParseOneCharToken('D');
      if ok { ok := ParseCharClass("012"); }
      if ok {
        MaybeAppend("~");
        MaybeAppendPrevName();
        return;
      }
      Restore(copy, o0);
    }

    method ParseCVQualifiers() returns (ok: bool)
      requires Valid() && !G.CVQualifiers(mangled, mangledCur).StepsBack?
      modifies this, out
      ensures Ran(ok, G.CVQualifiers(mangled, old(mangledCur)), old(o))
      decreases |mangled| - mangledCur, 0
    {
      var numCVQualifiers := 0;
      ok := ParseOneCharToken('r');
      numCVQualifiers := numCVQualifiers + (if ok then 1 else 0);
      ok := ParseOneCharToken('V');
      numCVQualifiers := numCVQualifiers + (if ok then 1 else 0);
      ok := ParseOneCharToken('K');
      numCVQualifiers := numCVQualifiers + (if ok then 1 else 0);
      ok := numCVQualifiers > 0;
    }

    method ParseTemplateParam() returns (ok: bool)
      requires Valid() && !G.TemplateParam(mangled, mangledCur).StepsBack?
      modifies this, out
      ensures Ran(ok, G.TemplateParam(mangled, old(mangledCur)), old(o))
      decreases |mangled| - mangledCur, 0
    {
      hide Exec;
      ExecEquations();
      ok := ParseTwoCharToken('T', '_');
      if ok {
        MaybeAppend("?");
        return;
      }
      var copy := Save();
      ghost var o0 := o;
      ok := ParseOneCharToken('T');
      if ok { ok := SkipNumber(); }
      if ok { ok := ParseOneCharToken('_'); }
      if ok {
        MaybeAppend("?");
        return;
      }
      Restore(copy, o0);
    }

    method ParseSubstitution() returns (ok: bool)
      requires Valid() && !G.Substitution(mangled, mangledCur).StepsBack?
      modifies this, out
      ensures Ran(ok, G.Substitution(mangled, old(mangledCur)), old(o))
      decreases |mangled| - mangledCur, 1
    {
      hide Exec;
      ExecEquations();
      ok := ParseTwoCharToken('S', '_');
      if ok {
        MaybeAppend("?");
        return;
      }
      var copy := Save();
      ghost var o0 := o;
      ok := ParseOneCharToken('S');
      if ok { ok := ParseSeqId(); }
      if ok { ok := ParseOneCharToken('_'); }
      if ok {
        MaybeAppend("?");
        return;
      }
      Restore(copy, o0);
      ok := ParseSubstitutionAbbreviation();
    }

    method PrintSubstitution(name: string)
      requires Valid()
      modifies this, out
      ensures Valid() && mangledCur == old(mangledCur) && o == Exec(G.SubstitutionTrace(name), old(o))
    {
      hide Exec;
      ExecEquations();
      MaybeAppend("std");
      if At(name, 0) != '\0' {
        MaybeAppend("::");
        MaybeAppend(name);
      }
    }

    // The two-letter abbreviations of the standard library.
    method ParseSubstitutionAbbreviation() returns (ok: bool)
      requires Valid() && !G.SubstitutionAbbreviation(mangled, mangledCur).StepsBack?
      modifies this, out
      ensures Ran(ok, G.SubstitutionAbbreviation(mangled, old(mangledCur)), old(o))
      decreases |mangled| - mangledCur, 0
    {
      hide Exec, Find, G.SubstitutionTrace;
      ExecEquations();
      var copy := Save();
      ghost var o0 := o;
      ok := ParseOneCharToken('S');
      if ok && mangledCur < |mangled| {
        var p := Search(Substitutions, 1, mangled[mangledCur], []);
        if p < |Substitutions.Entries()| {
          PrintSubstitution(Substitutions.Entries()[p].realName);
          mangledCur := mangledCur + 1;
          return true;
        }
      }
      Restore(copy, o0);
      return false;
    }

    method ParseTemplateTemplateParam() returns (ok: bool)
      requires Valid() && !G.TemplateTemplateParam(mangled, mangledCur).StepsBack?
      modifies this, out
      ensures Ran(ok, G.TemplateTemplateParam(mangled, old(mangledCur)), old(o))
      decreases |mangled| - mangledCur, 2
    {
      hide Exec;
      ExecEquations();
      ok := ParseTemplateParam();
      if ok { return; }
      ok := ParseSubstitution();
    }

    // ----- names -----------------------------------------------------------------------

    method ParseLocalSourceName() returns (ok: bool)
      requires Valid()
      requires G.LocalSourceName(mangled, mangledCur).StepsBack? ==> 0 <= G.LocalSourceName(mangled, mangledCur).cursor
      modifies this, out
      ensures var p := G.LocalSourceName(mangled, old(mangledCur));
              if p.StepsBack? then
                && ok && Valid() && o == old(o)
                && p.cursor <= |mangled| && mangledCur == G.Discriminator(mangled, p.cursor).Optional().next
              else Ran(ok, p, old(o))
      decreases |mangled| - mangledCur, 1
    {
      hide Exec;
      ExecEquations();
      var copy := Save();
      ghost var o0 := o;
      ok := ParseOneCharToken('L');
      if ok { ok := ParseSourceName(); }
      if ok {
        var _ := ParseDiscriminator();
        return;
      }
      Restore(copy, o0);
    }

    method ParseAbiTags() returns (ok: bool)
      requires Valid() && !G.AbiTags(mangled, mangledCur).StepsBack?
      modifies this, out
      ensures Ran(ok, G.AbiTags(mangled, old(mangledCur)), old(o))
      decreases |mangled| - mangledCur, 14
    {
      hide Exec;
      ExecEquations();
      var copy := Save();
      ghost var o0 := o;
      DisableAppend();
      ok := OneOrMore(G.FAbiTag);
      if ok {
        RestoreAppend(copy.append);
        return;
      }
      Restore(copy, o0);
    }

    method ParseOperatorName() returns (ok: bool)
      requires Valid() && !G.OperatorName(mangled, mangledCur).StepsBack?
      modifies this, out
      ensures Ran(ok, G.OperatorName(mangled, old(mangledCur)), old(o))
      decreases |mangled| - mangledCur, 1
    {
      hide Exec;
      ExecEquations();
      var enough := AtLeastNumCharsRemaining(2);
      if !enough { return false; }
      ok := ParseCastOperator();
      if ok { return; }
      ok := ParseVendorOperator();
      if ok { return; }
      ok := ParseOperatorSymbol();
    }

    // v <digit> <source-name>
    method ParseVendorOperator() returns (ok: bool)
      requires Valid()
      requires G.VendorOperator(mangled, mangledCur).StepsBack? ==> 0 <= G.VendorOperator(mangled, mangledCur).cursor
      modifies this, out
      ensures RanOrBack(ok, G.VendorOperator(mangled, old(mangledCur)), old(o))
      decreases |mangled| - mangledCur, 0
    {
      hide Exec, G.CharClass, G.SourceName;
      ExecEquations();
      var copy := Save();
      ghost var o0 := o;
      ok := ParseOneCharToken('v');
      if ok { ok := ParseCharClass("0123456789"); }
      if ok { ok := ParseSourceName(); }
      if !ok { Restore(copy, o0); }
    }

    // cv <type>, printed at nesting level 0
    method ParseCastOperator() returns (ok: bool)
      requires Valid() && !G.CastOperator(mangled, mangledCur).StepsBack?
      modifies this, out
      ensures Ran(ok, G.CastOperator(mangled, old(mangledCur)), old(o))
      decreases |mangled| - mangledCur, 0
    {
      hide Exec, G.Type;
      ExecEquations();
      var copy := Save();
      ghost var o0 := o;
      ok := ParseTwoCharToken('c', 'v');
      if ok {
        MaybeAppend("operator ");
        ExecFrame(Put("operator "), o0);
        EnterNestedName();
        ok := ParseType();
      }
      if ok {
        LeaveNestedName(copy.nestLevel);
      } else {
        Restore(copy, o0);
      }
    }

    // nw, na, ... from the table of operators.
    method PrintOperator(symbol: string)
      requires Valid()
      modifies this, out
      ensures Valid() && mangledCur == old(mangledCur) && o == Exec(G.OperatorTrace(symbol), old(o))
    {
      hide Exec;
      ExecEquations();
      MaybeAppend("operator");
      if IsLower(At(symbol, 0)) {
        MaybeAppend(" ");
      }
      MaybeAppend(symbol);
    }

    method ParseOperatorSymbol() returns (ok: bool)
      requires Valid() && !G.OperatorSymbol(mangled, mangledCur).StepsBack?
      modifies this, out
      ensures Ran(ok, G.OperatorSymbol(mangled, old(mangledCur)), old(o))
      decreases |mangled| - mangledCur, 0
    {
      hide Exec, Find, G.OperatorTrace;
      ExecEquations();
      if !(IsLower(At(mangled, mangledCur)) && IsAlpha(At(mangled, mangledCur + 1))) {
        return false;
      }
      var p := Search(Operators, 0, mangled[mangledCur], [mangled[mangledCur + 1]]);
      if p == |Operators.Entries()| {
        return false;
      }
      PrintOperator(Operators.Entries()[p].realName);
      mangledCur := mangledCur + 2;
      return true;
    }

    method ParseUnqualifiedName() returns (ok: bool)
      requires Valid() && !G.UnqualifiedName(mangled, mangledCur).StepsBack?
      modifies this, out
      ensures Ran(ok, G.UnqualifiedName(mangled, old(mangledCur)), old(o))
      decreases |mangled| - mangledCur, 2
    {
      hide Exec;
      ExecEquations();
      ok := ParseOperatorName();
      if ok { return; }
      ok := ParseCtorDtorName();
      if ok { return; }
      ok := ParseSourceName();
      if ok {
        var _ := ParseAbiTags();
        return;
      }
      ok := ParseLocalSourceName();
      if ok {
        var _ := ParseAbiTags();
      }
    }

    // St <unqualified-name>
    method ParseStdName() returns (ok: bool)
      requires Valid() && !G.StdName(mangled, mangledCur).StepsBack?
      modifies this, out
      ensures Ran(ok, G.StdName(mangled, old(mangledCur)), old(o))
      decreases |mangled| - mangledCur, 0
    {
      hide Exec;
      ExecEquations();
      var copy := Save();
      ghost var o0 := o;
      ok := ParseTwoCharToken('S', 't');
      if ok {
        MaybeAppend("std::");
        ok := ParseUnqualifiedName();
      }
      if !ok { Restore(copy, o0); }
    }

    method ParseUnscopedName() returns (ok: bool)
      requires Valid() && !G.UnscopedName(mangled, mangledCur).StepsBack?
      modifies this, out
      ensures Ran(ok, G.UnscopedName(mangled, old(mangledCur)), old(o))
      decreases |mangled| - mangledCur, 3
    {
      hide Exec;
      ExecEquations();
      ok := ParseUnqualifiedName();
      if ok { return; }
      ok := ParseStdName();
    }

    method ParseUnscopedTemplateName() returns (ok: bool)
      requires Valid() && !G.UnscopedTemplateName(mangled, mangledCur).StepsBack?
      modifies this, out
      ensures Ran(ok, G.UnscopedTemplateName(mangled, old(mangledCur)), old(o))
      decreases |mangled| - mangledCur, 4
    {
      hide Exec;
      ExecEquations();
      ok := ParseUnscopedName();
      if ok { return; }
      ok := ParseSubstitution();
    }

    method ParseNestedName() returns (ok: bool)
      requires Valid() && !G.NestedName(mangled, mangledCur).StepsBack?
      modifies this, out
      ensures Ran(ok, G.NestedName(mangled, old(mangledCur)), old(o))
      decreases |mangled| - mangledCur, 1
    {
      hide Exec;
      ExecEquations();
      var copy := Save();
      ghost var o0 := o;
      ok := ParseOneCharToken('N');
      if ok {
        EnterNestedName();
        var _ := ParseCVQualifiers();
        ok := ParsePrefix();
      }
      if ok {
        LeaveNestedName(copy.nestLevel);
        ok := ParseOneCharToken('E');
      }
      if ok { return; }
      Restore(copy, o0);
    }

    // One more component of a prefix.
    method ParsePrefixItem() returns (ok: bool)
      requires Valid() && !G.PrefixItem(mangled, mangledCur).StepsBack?
      modifies this, out
      ensures Ran(ok, G.PrefixItem(mangled, old(mangledCur)), old(o))
      decreases |mangled| - mangledCur, 4
    {
      hide Exec;
      ExecEquations();
      ok := ParseTemplateParam();
      if ok { return; }
      ok := ParseSubstitution();
      if ok { return; }
      ok := ParseUnscopedName();
    }

    method ParsePrefix() returns (ok: bool)
      requires Valid() && !G.Prefix(mangled, mangledCur, false).StepsBack?
      modifies this, out
      ensures Ran(ok, G.Prefix(mangled, old(mangledCur), false), old(o))
      decreases |mangled| - mangledCur, 5
    {
      hide Exec, G.PrefixItem, G.TemplateArgs, O.MaybeAppendSeparator, O.MaybeCancelLastSeparator;
      ExecEquations();
      var hasSomething := false;
      while true
        invariant Valid() && old(mangledCur) <= mangledCur && (hasSomething ==> old(mangledCur) < mangledCur)
        invariant Remains(G.Prefix(mangled, mangledCur, hasSomething), G.Prefix(mangled, old(mangledCur), false),
                          old(o))
        decreases |mangled| - mangledCur
      {
        ghost var i, o0 := mangledCur, o;
        MaybeAppendSeparator();
        ok := ParsePrefixItem();
        if ok {
          hasSomething := true;
          MaybeIncreaseNestLevel();
          continue;
        }
        SettledRestores(G.PrefixItem(mangled, i).t, Exec(Separate, o0));
        MaybeCancelLastSeparator(o0);
        assert o == Exec(Retract(G.PrefixItem(mangled, i).t), o0);
        if hasSomething {
          ok := ParseTemplateArgs();
          if ok {
            ok := ParsePrefix();
            assert o == Exec(G.Prefix(mangled, i, true).t, o0);
            return;
          }
        }
        assert o == Exec(G.Prefix(mangled, i, hasSomething).t, o0);
        return true;
      }
    }

    // Z <encoding> E <name> [<discriminator>]
    method ParseLocalEntity() returns (ok: bool)
      requires Valid() && !G.LocalEntity(mangled, mangledCur).StepsBack?
      modifies this, out
      ensures Ran(ok, G.LocalEntity(mangled, old(mangledCur)), old(o))
      decreases |mangled| - mangledCur, 0
    {
      hide Exec;
      ExecEquations();
      var copy := Save();
      ghost var o0 := o;
      ok := ParseOneCharToken('Z');
      if ok { ok := ParseEncoding(); }
      if ok { ok := ParseOneCharToken('E'); }
      if ok {
        MaybeAppend("::");
        ok := ParseName();
      }
      if ok {
        var _ := ParseDiscriminator();
      } else {
        Restore(copy, o0);
      }
    }

    // Z <encoding> E s [<discriminator>]
    method ParseLocalString() returns (ok: bool)
      requires Valid() && !G.LocalString(mangled, mangledCur).StepsBack?
      modifies this, out
      ensures Ran(ok, G.LocalString(mangled, old(mangledCur)), old(o))
      decreases |mangled| - mangledCur, 0
    {
      hide Exec;
      ExecEquations();
      var copy := Save();
      ghost var o0 := o;
      ok := ParseOneCharToken('Z');
      if ok { ok := ParseEncoding(); }
      if ok { ok := ParseTwoCharToken('E', 's'); }
      if ok {
        var _ := ParseDiscriminator();
      } else {
        Restore(copy, o0);
      }
    }

    method ParseLocalName() returns (ok: bool)
      requires Valid() && !G.LocalName(mangled, mangledCur).StepsBack?
      modifies this, out
      ensures Ran(ok, G.LocalName(mangled, old(mangledCur)), old(o))
      decreases |mangled| - mangledCur, 1
    {
      hide Exec;
      ExecEquations();
      ok := ParseLocalEntity();
      if ok { return; }
      ok := ParseLocalString();
    }

    // <unscoped-template-name> <template-args>
    method ParseTemplateName() returns (ok: bool)
      requires Valid() && !G.TemplateName(mangled, mangledCur).StepsBack?
      modifies this, out
      ensures Ran(ok, G.TemplateName(mangled, old(mangledCur)), old(o))
      decreases |mangled| - mangledCur, 5
    {
      hide Exec;
      ExecEquations();
      var copy := Save();
      ghost var o0 := o;
      ok := ParseUnscopedTemplateName();
      if ok { ok := ParseTemplateArgs(); }
      if !ok { Restore(copy, o0); }
    }

    method ParseName() returns (ok: bool)
      requires Valid() && !G.Name(mangled, mangledCur).StepsBack?
      modifies this, out
      ensures Ran(ok, G.Name(mangled, old(mangledCur)), old(o))
      decreases |mangled| - mangledCur, 6
    {
      hide Exec;
      ExecEquations();
      ok := ParseNestedName();
      if ok { return; }
      ok := ParseLocalName();
      if ok { return; }
      ok := ParseTemplateName();
      if ok { return; }
      ok := ParseUnscopedName();
    }

    // <name> <bare-function-type>
    method ParseFunctionEncoding() returns (ok: bool)
      requires Valid() && !G.FunctionEncoding(mangled, mangledCur).StepsBack?
      modifies this, out
      ensures Ran(ok, G.FunctionEncoding(mangled, old(mangledCur)), old(o))
      decreases |mangled| - mangledCur, 7
    {
      hide Exec;
      ExecEquations();
      var copy := Save();
      ghost var o0 := o;
      ok := ParseName();
      if ok { ok := ParseBareFunctionType(); }
      if !ok { Restore(copy, o0); }
    }

    method ParseEncoding() returns (ok: bool)
      requires Valid() && !G.Encoding(mangled, mangledCur).StepsBack?
      modifies this, out
      ensures Ran(ok, G.Encoding(mangled, old(mangledCur)), old(o))
      decreases |mangled| - mangledCur, 8
    {
      hide Exec;
      ExecEquations();
      ok := ParseFunctionEncoding();
      if ok { return; }
      ok := ParseName();
      if ok { return; }
      ok := ParseSpecialName();
    }

    method ParseMangledName() returns (ok: bool)
      requires Valid() && !G.MangledName(mangled, mangledCur).StepsBack?
      modifies this, out
      ensures Ran(ok, G.MangledName(mangled, old(mangledCur)), old(o))
      decreases |mangled| - mangledCur, 0
    {
      hide Exec;
      ExecEquations();
      ok := ParseTwoCharToken('_', 'Z');
      if ok { ok := ParseEncoding(); }
    }

    // TV, TT, TI and TS <type>
    method ParseVirtualTable() returns (ok: bool)
      requires Valid() && !G.VirtualTable(mangled, mangledCur).StepsBack?
      modifies this, out
      ensures Ran(ok, G.VirtualTable(mangled, old(mangledCur)), old(o))
      decreases |mangled| - mangledCur, 0
    {
      hide Exec;
      ExecEquations();
      var copy := Save();
      ghost var o0 := o;
      ok := ParseOneCharToken('T');
      if ok { ok := ParseCharClass("VTIS"); }
      if ok { ok := ParseType(); }
      if !ok { Restore(copy, o0); }
    }

    // Tc <call-offset> <call-offset> <encoding>
    method ParseCovariantThunk() returns (ok: bool)
      requires Valid() && !G.CovariantThunk(mangled, mangledCur).StepsBack?
      modifies this, out
      ensures Ran(ok, G.CovariantThunk(mangled, old(mangledCur)), old(o))
      decreases |mangled| - mangledCur, 0
    {
      hide Exec;
      ExecEquations();
      var copy := Save();
      ghost var o0 := o;
      ok := ParseTwoCharToken('T', 'c');
      if ok { ok := ParseCallOffset(); }
      if ok { ok := ParseCallOffset(); }
      if ok { ok := ParseEncoding(); }
      if !ok { Restore(copy, o0); }
    }

    // GV <name>
    method ParseGuardVariable() returns (ok: bool)
      requires Valid() && !G.GuardVariable(mangled, mangledCur).StepsBack?
      modifies this, out
      ensures Ran(ok, G.GuardVariable(mangled, old(mangledCur)), old(o))
      decreases |mangled| - mangledCur, 0
    {
      hide Exec;
      ExecEquations();
      var copy := Save();
      ghost var o0 := o;
      ok := ParseTwoCharToken('G', 'V');
      if ok { ok := ParseName(); }
      if !ok { Restore(copy, o0); }
    }

    // T <call-offset> <encoding>
    method ParseThunk() returns (ok: bool)
      requires Valid() && !G.Thunk(mangled, mangledCur).StepsBack?
      modifies this, out
      ensures Ran(ok, G.Thunk(mangled, old(mangledCur)), old(o))
      decreases |mangled| - mangledCur, 0
    {
      hide Exec;
      ExecEquations();
      var copy := Save();
      ghost var o0 := o;
      ok := ParseOneCharToken('T');
      if ok { ok := ParseCallOffset(); }
      if ok { ok := ParseEncoding(); }
      if !ok { Restore(copy, o0); }
    }

    // TC <type> <number> _ <type>, whose second type is not printed
    method ParseConstructionTable() returns (ok: bool)
      requires Valid() && !G.ConstructionTable(mangled, mangledCur).StepsBack?
      modifies this, out
      ensures Ran(ok, G.ConstructionTable(mangled, old(mangledCur)), old(o))
      decreases |mangled| - mangledCur, 0
    {
      hide Exec;
      ExecEquations();
      var copy := Save();
      ghost var o0 := o;
      ok := ParseTwoCharToken('T', 'C');
      if ok { ok := ParseType(); }
      if ok { ok := SkipNumber(); }
      if ok { ok := ParseOneCharToken('_'); }
      if ok {
        ExecKeepsAppend();
        DisableAppend();
        ok := ParseType();
      }
      if ok {
        RestoreAppend(copy.append);
      } else {
        Restore(copy, o0);
      }
    }

    // TF and TJ <type>
    method ParseJavaType() returns (ok: bool)
      requires Valid() && !G.JavaType(mangled, mangledCur).StepsBack?
      modifies this, out
      ensures Ran(ok, G.JavaType(mangled, old(mangledCur)), old(o))
      decreases |mangled| - mangledCur, 0
    {
      hide Exec;
      ExecEquations();
      var copy := Save();
      ghost var o0 := o;
      ok := ParseOneCharToken('T');
      if ok { ok := ParseCharClass("FJ"); }
      if ok { ok := ParseType(); }
      if !ok { Restore(copy, o0); }
    }

    // GR <name>
    method ParseReferenceTemporary() returns (ok: bool)
      requires Valid() && !G.ReferenceTemporary(mangled, mangledCur).StepsBack?
      modifies this, out
      ensures Ran(ok, G.ReferenceTemporary(mangled, old(mangledCur)), old(o))
      decreases |mangled| - mangledCur, 0
    {
      hide Exec;
      ExecEquations();
      var copy := Save();
      ghost var o0 := o;
      ok := ParseTwoCharToken('G', 'R');
      if ok { ok := ParseName(); }
      if !ok { Restore(copy, o0); }
    }

    // GA <encoding>
    method ParseHiddenAlias() returns (ok: bool)
      requires Valid() && !G.HiddenAlias(mangled, mangledCur).StepsBack?
      modifies this, out
      ensures Ran(ok, G.HiddenAlias(mangled, old(mangledCur)), old(o))
      decreases |mangled| - mangledCur, 0
    {
      hide Exec;
      ExecEquations();
      var copy := Save();
      ghost var o0 := o;
      ok := ParseTwoCharToken('G', 'A');
      if ok { ok := ParseEncoding(); }
      if !ok { Restore(copy, o0); }
    }

    // Th and Tv <call-offset> <encoding>
    method ParseOffsetThunk() returns (ok: bool)
      requires Valid() && !G.OffsetThunk(mangled, mangledCur).StepsBack?
      modifies this, out
      ensures Ran(ok, G.OffsetThunk(mangled, old(mangledCur)), old(o))
      decreases |mangled| - mangledCur, 0
    {
      hide Exec;
      ExecEquations();
      var copy := Save();
      ghost var o0 := o;
      ok := ParseOneCharToken('T');
      if ok { ok := ParseCharClass("hv"); }
      if ok { ok := ParseCallOffset(); }
      if ok { ok := ParseEncoding(); }
      if !ok { Restore(copy, o0); }
    }

    method ParseSpecialName() returns (ok: bool)
      requires Valid() && !G.SpecialName(mangled, mangledCur).StepsBack?
      modifies this, out
      ensures Ran(ok, G.SpecialName(mangled, old(mangledCur)), old(o))
      decreases |mangled| - mangledCur, 1
    {
      hide Exec;
      ExecEquations();
      ok := ParseVirtualTable();
      if ok { return; }
      ok := ParseCovariantThunk();
      if ok { return; }
      ok := ParseGuardVariable();
      if ok { return; }
      ok := ParseThunk();
      if ok { return; }
      ok := ParseConstructionTable();
      if ok { return; }
      ok := ParseJavaType();
      if ok { return; }
      ok := ParseReferenceTemporary();
      if ok { return; }
      ok := ParseHiddenAlias();
      if ok { return; }
      ok := ParseOffsetThunk();
    }

    // ----- types -----------------------------------------------------------------------

    method ParseBuiltinType() returns (ok: bool)
      requires Valid()
      requires G.BuiltinType(mangled, mangledCur).StepsBack? ==> 0 <= G.BuiltinType(mangled, mangledCur).cursor
      modifies this, out
      ensures RanOrBack(ok, G.BuiltinType(mangled, old(mangledCur)), old(o))
      decreases |mangled| - mangledCur, 1
    {
      hide Exec;
      ExecEquations();
      if mangledCur < |mangled| {
        var p := Search(BuiltinTypes, 0, mangled[mangledCur], []);
        if p < |BuiltinTypes.Entries()| {
          MaybeAppend(BuiltinTypes.Entries()[p].realName);
          mangledCur := mangledCur + 1;
          return true;
        }
      }
      var copy := Save();
      ghost var o0 := o;
      ok := ParseOneCharToken('u');
      if ok { ok := ParseSourceName(); }
      if ok { return; }
      Restore(copy, o0);
    }

    method ParseFunctionType() returns (ok: bool)
      requires Valid() && !G.FunctionType(mangled, mangledCur).StepsBack?
      modifies this, out
      ensures Ran(ok, G.FunctionType(mangled, old(mangledCur)), old(o))
      decreases |mangled| - mangledCur, 1
    {
      hide Exec;
      ExecEquations();
      var copy := Save();
      ghost var o0 := o;
      ok := ParseOneCharToken('F');
      if ok {
        var _ := ParseOneCharToken('Y');
        ok := ParseBareFunctionType();
      }
      if ok {
        ok := ParseOneCharToken('E');
      }
      if ok { return; }
      Restore(copy, o0);
    }

    method ParseBareFunctionType() returns (ok: bool)
      requires Valid() && !G.BareFunctionType(mangled, mangledCur).StepsBack?
      modifies this, out
      ensures Ran(ok, G.BareFunctionType(mangled, old(mangledCur)), old(o))
      decreases |mangled| - mangledCur, 14
    {
      hide Exec;
      ExecEquations();
      var copy := Save();
      ghost var o0 := o;
      DisableAppend();
      ok := OneOrMore(G.FType);
      if ok {
        RestoreAppend(copy.append);
        MaybeAppend("()");
        return;
      }
      Restore(copy, o0);
    }

    method ParseClassEnumType() returns (ok: bool)
      requires Valid() && !G.ClassEnumType(mangled, mangledCur).StepsBack?
      modifies this, out
      ensures Ran(ok, G.ClassEnumType(mangled, old(mangledCur)), old(o))
      decreases |mangled| - mangledCur, 7
    {
      ok := ParseName();
    }

    // A <number> _ <type>
    method ParseFixedArray() returns (ok: bool)
      requires Valid() && !G.FixedArray(mangled, mangledCur).StepsBack?
      modifies this, out
      ensures Ran(ok, G.FixedArray(mangled, old(mangledCur)), old(o))
      decreases |mangled| - mangledCur, 0
    {
      hide Exec;
      ExecEquations();
      var copy := Save();
      ghost var o0 := o;
      ok := ParseOneCharToken('A');
      if ok { ok := SkipNumber(); }
      if ok { ok := ParseOneCharToken('_'); }
      if ok { ok := ParseType(); }
      if !ok { Restore(copy, o0); }
    }

    // A [<expression>] _ <type>
    method ParseDependentArray() returns (ok: bool)
      requires Valid() && !G.DependentArray(mangled, mangledCur).StepsBack?
      modifies this, out
      ensures Ran(ok, G.DependentArray(mangled, old(mangledCur)), old(o))
      decreases |mangled| - mangledCur, 0
    {
      hide Exec;
      ExecEquations();
      var copy := Save();
      ghost var o0 := o;
      ok := ParseOneCharToken('A');
      if ok {
        var _ := ParseExpression();
        ok := ParseOneCharToken('_');
      }
      if ok { ok := ParseType(); }
      if !ok { Restore(copy, o0); }
    }

    method ParseArrayType() returns (ok: bool)
      requires Valid() && !G.ArrayType(mangled, mangledCur).StepsBack?
      modifies this, out
      ensures Ran(ok, G.ArrayType(mangled, old(mangledCur)), old(o))
      decreases |mangled| - mangledCur, 1
    {
      hide Exec;
      ExecEquations();
      ok := ParseFixedArray();
      if ok { return; }
      ok := ParseDependentArray();
    }

    method ParsePointerToMemberType() returns (ok: bool)
      requires Valid() && !G.PointerToMemberType(mangled, mangledCur).StepsBack?
      modifies this, out
      ensures Ran(ok, G.PointerToMemberType(mangled, old(mangledCur)), old(o))
      decreases |mangled| - mangledCur, 1
    {
      hide Exec;
      ExecEquations();
      var copy := Save();
      ghost var o0 := o;
      ok := ParseOneCharToken('M');
      if ok { ok := ParseType(); }
      if ok { ok := ParseType(); }
      if ok { return; }
      Restore(copy, o0);
    }

    // <CV-qualifiers> <type>
    method ParseQualifiedType() returns (ok: bool)
      requires Valid() && !G.QualifiedType(mangled, mangledCur).StepsBack?
      modifies this, out
      ensures Ran(ok, G.QualifiedType(mangled, old(mangledCur)), old(o))
      decreases |mangled| - mangledCur, 0
    {
      hide Exec;
      ExecEquations();
      var copy := Save();
      ghost var o0 := o;
      ok := ParseCVQualifiers();
      if ok { ok := ParseType(); }
      if !ok { Restore(copy, o0); }
    }

    // O, P, R, C and G <type>
    method ParseIndirectType() returns (ok: bool)
      requires Valid() && !G.IndirectType(mangled, mangledCur).StepsBack?
      modifies this, out
      ensures Ran(ok, G.IndirectType(mangled, old(mangledCur)), old(o))
      decreases |mangled| - mangledCur, 0
    {
      hide Exec;
      ExecEquations();
      var copy := Save();
      ghost var o0 := o;
      ok := ParseCharClass("OPRCG");
      if ok { ok := ParseType(); }
      if !ok { Restore(copy, o0); }
    }

    // Dp <type>
    method ParsePackExpansion() returns (ok: bool)
      requires Valid() && !G.PackExpansion(mangled, mangledCur).StepsBack?
      modifies this, out
      ensures Ran(ok, G.PackExpansion(mangled, old(mangledCur)), old(o))
      decreases |mangled| - mangledCur, 0
    {
      hide Exec;
      ExecEquations();
      var copy := Save();
      ghost var o0 := o;
      ok := ParseTwoCharToken('D', 'p');
      if ok { ok := ParseType(); }
      if !ok { Restore(copy, o0); }
    }

    // Dt and DT <expression> E
    method ParseDecltype() returns (ok: bool)
      requires Valid() && !G.Decltype(mangled, mangledCur).StepsBack?
      modifies this, out
      ensures Ran(ok, G.Decltype(mangled, old(mangledCur)), old(o))
      decreases |mangled| - mangledCur, 0
    {
      hide Exec;
      ExecEquations();
      var copy := Save();
      ghost var o0 := o;
      ok := ParseOneCharToken('D');
      if ok { ok := ParseCharClass("tT"); }
      if ok { ok := ParseExpression(); }
      if ok { ok := ParseOneCharToken('E'); }
      if !ok { Restore(copy, o0); }
    }

    // U <source-name> <type>
    method ParseVendorType() returns (ok: bool)
      requires Valid() && !G.VendorType(mangled, mangledCur).StepsBack?
      modifies this, out
      ensures Ran(ok, G.VendorType(mangled, old(mangledCur)), old(o))
      decreases |mangled| - mangledCur, 0
    {
      hide Exec;
      ExecEquations();
      var copy := Save();
      ghost var o0 := o;
      ok := ParseOneCharToken('U');
      if ok { ok := ParseSourceName(); }
      if ok { ok := ParseType(); }
      if !ok { Restore(copy, o0); }
    }

    // <template-template-param> <template-args>
    method ParseTemplateTemplateType() returns (ok: bool)
      requires Valid() && !G.TemplateTemplateType(mangled, mangledCur).StepsBack?
      modifies this, out
      ensures Ran(ok, G.TemplateTemplateType(mangled, old(mangledCur)), old(o))
      decreases |mangled| - mangledCur, 0
    {
      hide Exec;
      ExecEquations();
      var copy := Save();
      ghost var o0 := o;
      ok := ParseTemplateTemplateParam();
      if ok { ok := ParseTemplateArgs(); }
      if !ok { Restore(copy, o0); }
    }

    method ParseMarkedType() returns (ok: bool)
      requires Valid() && !G.MarkedType(mangled, mangledCur).StepsBack?
      modifies this, out
      ensures Ran(ok, G.MarkedType(mangled, old(mangledCur)), old(o))
      decreases |mangled| - mangledCur, 8
    {
      hide Exec;
      ExecEquations();
      ok := ParseQualifiedType();
      if ok { return; }
      ok := ParseIndirectType();
      if ok { return; }
      ok := ParsePackExpansion();
      if ok { return; }
      ok := ParseDecltype();
      if ok { return; }
      ok := ParseVendorType();
    }

    method ParseUnmarkedType() returns (ok: bool)
      requires Valid() && !G.UnmarkedType(mangled, mangledCur).StepsBack?
      modifies this, out
      ensures Ran(ok, G.UnmarkedType(mangled, old(mangledCur)), old(o))
      decreases |mangled| - mangledCur, 8
    {
      hide Exec;
      ExecEquations();
      ok := ParseBuiltinType();
      if ok { return; }
      ok := ParseFunctionType();
      if ok { return; }
      ok := ParseClassEnumType();
      if ok { return; }
      ok := ParseArrayType();
      if ok { return; }
      ok := ParsePointerToMemberType();
      if ok { return; }
      ok := ParseSubstitution();
    }

    method ParseType() returns (ok: bool)
      requires Valid() && !G.Type(mangled, mangledCur).StepsBack?
      modifies this, out
      ensures Ran(ok, G.Type(mangled, old(mangledCur)), old(o))
      decreases |mangled| - mangledCur, 9
    {
      hide Exec;
      ExecEquations();
      ok := ParseMarkedType();
      if ok { return; }
      ok := ParseUnmarkedType();
      if ok { return; }
      ok := ParseTemplateTemplateType();
      if ok { return; }
      ok := ParseTemplateParam();
    }

    // ----- template arguments and expressions ---------------------------------------------

    method ParseTemplateArgs() returns (ok: bool)
      requires Valid() && !G.TemplateArgs(mangled, mangledCur).StepsBack?
      modifies this, out
      ensures Ran(ok, G.TemplateArgs(mangled, old(mangledCur)), old(o))
      decreases |mangled| - mangledCur, 1
    {
      hide Exec;
      ExecEquations();
      var copy := Save();
      ghost var o0 := o;
      DisableAppend();
      ok := ParseOneCharToken('I');
      if ok { ok := OneOrMore(G.FTemplateArg); }
      if ok { ok := ParseOneCharToken('E'); }
      if ok {
        RestoreAppend(copy.append);
        MaybeAppend("<>");
        return;
      }
      Restore(copy, o0);
    }

    // I and J <template-arg>* E
    method ParseArgumentPack() returns (ok: bool)
      requires Valid() && !G.ArgumentPack(mangled, mangledCur).StepsBack?
      modifies this, out
      ensures Ran(ok, G.ArgumentPack(mangled, old(mangledCur)), old(o))
      decreases |mangled| - mangledCur, 0
    {
      hide Exec;
      ExecEquations();
      var copy := Save();
      ghost var o0 := o;
      ok := ParseCharClass("IJ");
      if ok { ok := ZeroOrMore(G.FTemplateArg); }
      if ok { ok := ParseOneCharToken('E'); }
      if !ok { Restore(copy, o0); }
    }

    method ParseTypeOrLiteral() returns (ok: bool)
      requires Valid() && !G.TypeOrLiteral(mangled, mangledCur).StepsBack?
      modifies this, out
      ensures Ran(ok, G.TypeOrLiteral(mangled, old(mangledCur)), old(o))
      decreases |mangled| - mangledCur, 10
    {
      hide Exec;
      ExecEquations();
      var copy := Save();
      ghost var o0 := o;
      ok := ParseType();
      if !ok { ok := ParseExprPrimary(); }
      if !ok { Restore(copy, o0); }
    }

    // X <expression> E
    method ParseExpressionArg() returns (ok: bool)
      requires Valid() && !G.ExpressionArg(mangled, mangledCur).StepsBack?
      modifies this, out
      ensures Ran(ok, G.ExpressionArg(mangled, old(mangledCur)), old(o))
      decreases |mangled| - mangledCur, 0
    {
      hide Exec;
      ExecEquations();
      var copy := Save();
      ghost var o0 := o;
      ok := ParseOneCharToken('X');
      if ok { ok := ParseExpression(); }
      if ok { ok := ParseOneCharToken('E'); }
      if !ok { Restore(copy, o0); }
    }

    method ParseTemplateArg() returns (ok: bool)
      requires Valid() && !G.TemplateArg(mangled, mangledCur).StepsBack?
      modifies this, out
      ensures Ran(ok, G.TemplateArg(mangled, old(mangledCur)), old(o))
      decreases |mangled| - mangledCur, 11
    {
      hide Exec;
      ExecEquations();
      ok := ParseArgumentPack();
      if ok { return; }
      ok := ParseTypeOrLiteral();
      if ok { return; }
      ok := ParseExpressionArg();
    }

    // <operator-name> and three expressions
    method ParseTernary() returns (ok: bool)
      requires Valid() && !G.Ternary(mangled, mangledCur).StepsBack?
      modifies this, out
      ensures Ran(ok, G.Ternary(mangled, old(mangledCur)), old(o))
      decreases |mangled| - mangledCur, 2
    {
      hide Exec;
      ExecEquations();
      var copy := Save();
      ghost var o0 := o;
      ok := ParseOperatorName();
      if ok { ok := ParseExpression(); }
      if ok { ok := ParseExpression(); }
      if ok { ok := ParseExpression(); }
      if !ok { Restore(copy, o0); }
    }

    // <operator-name> and two expressions
    method ParseBinary() returns (ok: bool)
      requires Valid() && !G.Binary(mangled, mangledCur).StepsBack?
      modifies this, out
      ensures Ran(ok, G.Binary(mangled, old(mangledCur)), old(o))
      decreases |mangled| - mangledCur, 2
    {
      hide Exec;
      ExecEquations();
      var copy := Save();
      ghost var o0 := o;
      ok := ParseOperatorName();
      if ok { ok := ParseExpression(); }
      if ok { ok := ParseExpression(); }
      if !ok { Restore(copy, o0); }
    }

    // <operator-name> <expression>
    method ParseUnary() returns (ok: bool)
      requires Valid() && !G.Unary(mangled, mangledCur).StepsBack?
      modifies this, out
      ensures Ran(ok, G.Unary(mangled, old(mangledCur)), old(o))
      decreases |mangled| - mangledCur, 2
    {
      hide Exec;
      ExecEquations();
      var copy := Save();
      ghost var o0 := o;
      ok := ParseOperatorName();
      if ok { ok := ParseExpression(); }
      if !ok { Restore(copy, o0); }
    }

    // st <type>
    method ParseSizeofType() returns (ok: bool)
      requires Valid() && !G.SizeofType(mangled, mangledCur).StepsBack?
      modifies this, out
      ensures Ran(ok, G.SizeofType(mangled, old(mangledCur)), old(o))
      decreases |mangled| - mangledCur, 0
    {
      hide Exec;
      ExecEquations();
      var copy := Save();
      ghost var o0 := o;
      ok := ParseTwoCharToken('s', 't');
      if ok { ok := ParseType(); }
      if !ok { Restore(copy, o0); }
    }

    // sr <type> <unqualified-name> <template-args>
    method ParseScopedTemplate() returns (ok: bool)
      requires Valid() && !G.ScopedTemplate(mangled, mangledCur).StepsBack?
      modifies this, out
      ensures Ran(ok, G.ScopedTemplate(mangled, old(mangledCur)), old(o))
      decreases |mangled| - mangledCur, 0
    {
      hide Exec;
      ExecEquations();
      var copy := Save();
      ghost var o0 := o;
      ok := ParseTwoCharToken('s', 'r');
      if ok { ok := ParseType(); }
      if ok { ok := ParseUnqualifiedName(); }
      if ok { ok := ParseTemplateArgs(); }
      if !ok { Restore(copy, o0); }
    }

    // sr <type> <unqualified-name>
    method ParseScoped() returns (ok: bool)
      requires Valid() && !G.Scoped(mangled, mangledCur).StepsBack?
      modifies this, out
      ensures Ran(ok, G.Scoped(mangled, old(mangledCur)), old(o))
      decreases |mangled| - mangledCur, 0
    {
      hide Exec;
      ExecEquations();
      var copy := Save();
      ghost var o0 := o;
      ok := ParseTwoCharToken('s', 'r');
      if ok { ok := ParseType(); }
      if ok { ok := ParseUnqualifiedName(); }
      if !ok { Restore(copy, o0); }
    }

    method ParseExpression() returns (ok: bool)
      requires Valid() && !G.Expression(mangled, mangledCur).StepsBack?
      modifies this, out
      ensures Ran(ok, G.Expression(mangled, old(mangledCur)), old(o))
      decreases |mangled| - mangledCur, 3
    {
      hide Exec;
      ExecEquations();
      ok := ParseTemplateParam();
      if ok { return; }
      ok := ParseExprPrimary();
      if ok { return; }
      ok := ParseTernary();
      if ok { return; }
      ok := ParseBinary();
      if ok { return; }
      ok := ParseUnary();
      if ok { return; }
      ok := ParseSizeofType();
      if ok { return; }
      ok := ParseScopedTemplate();
      if ok { return; }
      ok := ParseScoped();
    }

    // L <type> <number> E
    method ParseIntegerLiteral() returns (ok: bool)
      requires Valid() && !G.IntegerLiteral(mangled, mangledCur).StepsBack?
      modifies this, out
      ensures Ran(ok, G.IntegerLiteral(mangled, old(mangledCur)), old(o))
      decreases |mangled| - mangledCur, 0
    {
      hide Exec;
      ExecEquations();
      var copy := Save();
      ghost var o0 := o;
      ok := ParseOneCharToken('L');
      if ok { ok := ParseType(); }
      if ok { ok := SkipNumber(); }
      if ok { ok := ParseOneCharToken('E'); }
      if !ok { Restore(copy, o0); }
    }

    // L <type> <float> E
    method ParseFloatLiteral() returns (ok: bool)
      requires Valid() && !G.FloatLiteral(mangled, mangledCur).StepsBack?
      modifies this, out
      ensures Ran(ok, G.FloatLiteral(mangled, old(mangledCur)), old(o))
      decreases |mangled| - mangledCur, 0
    {
      hide Exec;
      ExecEquations();
      var copy := Save();
      ghost var o0 := o;
      ok := ParseOneCharToken('L');
      if ok { ok := ParseType(); }
      if ok { ok := ParseFloatNumber(); }
      if ok { ok := ParseOneCharToken('E'); }
      if !ok { Restore(copy, o0); }
    }

    // L <mangled-name> E
    method ParseNameLiteral() returns (ok: bool)
      requires Valid() && !G.NameLiteral(mangled, mangledCur).StepsBack?
      modifies this, out
      ensures Ran(ok, G.NameLiteral(mangled, old(mangledCur)), old(o))
      decreases |mangled| - mangledCur, 0
    {
      hide Exec;
      ExecEquations();
      var copy := Save();
      ghost var o0 := o;
      ok := ParseOneCharToken('L');
      if ok { ok := ParseMangledName(); }
      if ok { ok := ParseOneCharToken('E'); }
      if !ok { Restore(copy, o0); }
    }

    // LZ <encoding> E
    method ParseEncodingLiteral() returns (ok: bool)
      requires Valid() && !G.EncodingLiteral(mangled, mangledCur).StepsBack?
      modifies this, out
      ensures Ran(ok, G.EncodingLiteral(mangled, old(mangledCur)), old(o))
      decreases |mangled| - mangledCur, 0
    {
      hide Exec;
      ExecEquations();
      var copy := Save();
      ghost var o0 := o;
      ok := ParseTwoCharToken('L', 'Z');
      if ok { ok := ParseEncoding(); }
      if ok { ok := ParseOneCharToken('E'); }
      if !ok { Restore(copy, o0); }
    }

    method ParseExprPrimary() returns (ok: bool)
      requires Valid() && !G.ExprPrimary(mangled, mangledCur).StepsBack?
      modifies this, out
      ensures Ran(ok, G.ExprPrimary(mangled, old(mangledCur)), old(o))
      decreases |mangled| - mangledCur, 1
    {
      hide Exec;
      ExecEquations();
      ok := ParseIntegerLiteral();
      if ok { return; }
      ok := ParseFloatLiteral();
      if ok { return; }
      ok := ParseNameLiteral();
      if ok { return; }
      ok := ParseEncodingLiteral();
    }

    // ----- the whole name ----------------------------------------------------------------------

    // One of the inner loops of IsFunctionCloneSuffix, past a run of characters of one kind.
    static method SkipRun(str: CString, start: nat, p: char -> bool) returns (i: nat)
      requires start <= |str| && !p('\0')
      ensures i == RunEnd(str, start, p)
    {
      i := start;
      while p(At(str, i))
        invariant i <= |str| && RunEnd(str, i, p) == RunEnd(str, start, p)
        decreases |str| - i
      {
        i := i + 1;
      }
    }

    // str is what is left of the mangled name.
    method IsFunctionCloneSuffix() returns (r: bool)
      requires Valid()
      ensures r == CloneSuffix.IsFunctionCloneSuffix(mangled[mangledCur..])
    {
      var str: CString := mangled[mangledCur..];
      var i := 0;
      while At(str, i) != '\0'
        invariant i <= |str| && Scan(str, i) == Scan(str, 0)
        decreases |str| - i
      {
        if At(str, i) != '.' || !IsAlpha(At(str, i + 1)) {
          return false;
        }
        var dot := SkipRun(str, i + 2, IsAlpha);
        if At(str, dot) != '.' || !IsDigit(At(str, dot + 1)) {
          return false;
        }
        i := SkipRun(str, dot + 2, IsDigit);
      }
      return true;
    }

    method ParseTopLevelMangledName() returns (ok: bool)
      requires Valid() && mangledCur == 0 && !G.TopLevelMangledName(mangled).StepsBack?
      modifies this, out
      ensures Ran(ok, G.TopLevelMangledName(mangled), old(o))
    {
      hide Exec;
      ExecEquations();
      ok := ParseMangledName();
      if ok && mangledCur < |mangled| {
        var clone := IsFunctionCloneSuffix();
        if clone {
          return true;
        }
        if mangled[mangledCur] == '@' {
          MaybeAppend(mangled[mangledCur..]);
          return true;
        }
        return false;
      }
    }

    // ----- repetition ------------------------------------------------------------------------

    // A call through the function pointer f.
    method Call(f: G.ParseFunc) returns (ok: bool)
      requires Valid() && !G.Call(f, mangled, mangledCur).StepsBack?
      modifies this, out
      ensures Ran(ok, G.Call(f, mangled, old(mangledCur)), old(o))
      decreases |mangled| - mangledCur, 12
    {
      match f
      case FType => ok := ParseType();
      case FAbiTag => ok := ParseAbiTag();
      case FTemplateArg => ok := ParseTemplateArg();
    }

    method ZeroOrMore(f: G.ParseFunc) returns (ok: bool)
      requires Valid() && !G.ZeroOrMore(f, mangled, mangledCur).StepsBack?
      modifies this, out
      ensures Ran(ok, G.ZeroOrMore(f, mangled, old(mangledCur)), old(o))
      decreases |mangled| - mangledCur, 13
    {
      hide Exec;
      ExecEquations();
      ok := true;
      while ok
        invariant Valid() && old(mangledCur) <= mangledCur <= |mangled|
        invariant ok ==>
                    Remains(G.ZeroOrMore(f, mangled, mangledCur), G.ZeroOrMore(f, mangled, old(mangledCur)), old(o))
        invariant !ok ==> Ran(true, G.ZeroOrMore(f, mangled, old(mangledCur)), old(o))
        decreases |mangled| - mangledCur, ok
      {
        ok := Call(f);
      }
      return true;
    }

    // What is left of parse whole, started with output before, is parse rest.
    ghost predicate Remains(rest: G.Parse, whole: G.Parse, before: Output)
      reads this, out
    {
      && !rest.StepsBack? && !whole.StepsBack?
      && rest.Accept? == whole.Accept? && rest.next == whole.next
      && Exec(rest.t, o) == Exec(whole.t, before)
    }

    method OneOrMore(f: G.ParseFunc) returns (ok: bool)
      requires Valid() && !G.OneOrMore(f, mangled, mangledCur).StepsBack?
      modifies this, out
      ensures Ran(ok, G.OneOrMore(f, mangled, old(mangledCur)), old(o))
      decreases |mangled| - mangledCur, 13
    {
      hide Exec;
      ExecEquations();
      ok := Call(f);
      if ok {
        ok := ZeroOrMore(f);
      }
    }
  }

  // The entry point.  The answer is the grammar's acceptance of the name, unless the
  // output overflowed on the accepted path; in a roomy buffer that does not happen, and
  // the text of the name is left there.
  method Demangle(mangled: CString, out: array<char>) returns (r: bool)
    requires !G.TopLevelMangledName(mangled).StepsBack?
    modifies out
    ensures Outcome(r, out[..]) == Demangled(mangled, old(out[..]))
    ensures G.TopLevelMangledName(mangled).Reject? ==> !r
    ensures G.TopLevelMangledName(mangled).Accept? && |TextOf(mangled)| + 3 <= out.Length ==>
              r && TextOf(mangled) <= out[..]
    ensures G.TopLevelMangledName(mangled).Accept? && TooSmall(TextOf(mangled), out.Length) ==> !r
  {
    ghost var before := out[..];
    var state := new State(mangled, out);
    r := state.ParseTopLevelMangledName();
    r := r && !state.overflowed;
    if G.TopLevelMangledName(mangled).Accept? {
      ThreeBytesToSpare(mangled, before);
      if TooSmall(TextOf(mangled), |before|) {
        TooSmallRefused(mangled, before);
      }
    }
  }
}
