// The grammar the demangler accepts, as a recogniser over positions.  Every
// function says where the parsing function of the same name leaves the cursor
// when entered at i, and which trace of output actions it performs.  No function
// reads the output, the append flag or the nesting level.
module Grammar {
  import opened CStrings
  import opened CloneSuffix
  import opened Decimals
  import opened Trace

  // Accept and Reject carry the cursor the parsing function leaves behind and
  // what it did to the output.  StepsBack marks a run that consumes a source
  // name whose negative length moves the cursor to where the name began or
  // before it, and carries the cursor that source name leaves.
  datatype Parse = Accept(next: nat, t: Trace) | Reject(next: nat, t: Trace) | StepsBack(cursor: int) {
    predicate IsFailure() { !Accept? }
    function PropagateFailure(): Parse requires IsFailure() { this }
    function Extract(): Parse requires Accept? { this }

    // q runs after this.
    function Before(q: Parse): (r: Parse)
      requires !StepsBack?
      ensures r.Accept? == q.Accept? && r.Reject? == q.Reject? && (!r.StepsBack? ==> r.next == q.next)
      ensures !r.StepsBack? && Clean(t) && Clean(q.t) ==> Clean(r.t)
      ensures !r.StepsBack? && Sane(t) && Sane(q.t) ==> Sane(r.t)
      ensures !r.StepsBack? && Settled(t) && Settled(q.t) ==> Settled(r.t)
      ensures !r.StepsBack? && Silent(t) && Silent(q.t) ==> Silent(r.t)
    {
      match q
      case Accept(next, u) => Accept(next, Then(t, u))
      case Reject(next, u) => Reject(next, Then(t, u))
      case StepsBack(_) => q
    }

    // The caller restores its saved state when the alternative fails.
    function OrBackTo(i: nat): (r: Parse)
      ensures r.Accept? ==> r == this
      ensures r.Reject? ==> Reject? && r.next == i && (Clean(t) ==> Settled(r.t) && Clean(r.t))
      ensures r.Reject? && Silent(t) ==> Silent(r.t)
      ensures r.StepsBack? == StepsBack?
    {
      if Reject? then Reject(i, Abandon(t)) else this
    }

    // MaybeAppend on success.
    function AndPut(s: string): (r: Parse)
      ensures r.Accept? == Accept? && (Accept? ==> r.next == next && (Clean(t) ==> Clean(r.t)))
      ensures !Accept? ==> r == this
    {
      if Accept? then Accept(next, Then(t, Put(s))) else this
    }

    // Between DisableAppend and RestoreAppend.
    function Quietly(): (r: Parse)
      ensures r.Accept? == Accept? && r.Reject? == Reject?
      ensures !StepsBack? ==> r.next == next && (Clean(t) ==> Clean(r.t))
    {
      match this
      case Accept(next, t) => Accept(next, Quiet(t))
      case Reject(next, t) => Reject(next, Quiet(t))
      case StepsBack(_) => this
    }

    // Between EnterNestedName and LeaveNestedName.
    function AtLevelZero(): (r: Parse)
      ensures r.Accept? == Accept? && r.Reject? == Reject?
      ensures !StepsBack? ==> r.next == next && (Sane(t) ==> Clean(r.t))
    {
      match this
      case Accept(next, t) => Accept(next, Nested(t))
      case Reject(next, t) => Reject(next, Nested(t))
      case StepsBack(_) => this
    }

    // An optional part that is absent is no failure.
    function Optional(): (r: Parse)
      ensures !r.Reject? && r.StepsBack? == StepsBack?
      ensures !r.StepsBack? ==> r.next == next && r.t == t
    {
      if Reject? then Accept(next, t) else this
    }
  }

  // The parsing functions passed by pointer to OneOrMore and ZeroOrMore.
  datatype ParseFunc = FType | FAbiTag | FTemplateArg

  // Separators are cancelled properly and the nesting level comes back.
  ghost predicate Clean(t: Trace) { Sane(t) && Level(t) }

  // The discipline of a parsing function: success consumes input, failure moves
  // neither the cursor nor any other field, nothing runs past the terminator.
  ghost predicate Steps(m: string, i: nat, p: Parse)
  {
    match p
    case Accept(next, t) => i < next <= |m| && Clean(t)
    case Reject(next, t) => next == i && Settled(t) && Clean(t)
    case StepsBack(_) => !Tame(m)
  }

  // The discipline of the functions that do not restore the cursor on failure.
  ghost predicate Drifts(m: string, i: nat, p: Parse)
  {
    match p
    case Accept(next, t) => i < next <= |m| && Clean(t)
    case Reject(next, t) => i <= next <= |m| && Settled(t) && Clean(t)
    case StepsBack(_) => !Tame(m)
  }

  // The discipline of optional parts and loops, which always succeed.
  ghost predicate Optionally(m: string, i: nat, p: Parse)
  {
    match p
    case Accept(next, t) => i <= next <= |m| && Clean(t)
    case Reject(_, _) => false
    case StepsBack(_) => !Tame(m)
  }

  // The discipline of a token, which does nothing to the output.
  ghost predicate TokenSteps(m: string, i: nat, p: Parse)
  {
    match p
    case Accept(next, t) => i < next <= |m| && Clean(t)
    case Reject(next, t) => next == i && Settled(t) && Clean(t)
    case StepsBack(_) => false
  }

  // No position of m holds a source name that moves the cursor backwards.
  ghost predicate Tame(m: string)
  {
    forall k: nat :: k <= |m| ==> !SourceName(m, k).StepsBack?
  }

  // ----- tokens ------------------------------------------------------------

  function Token(m: string, i: nat, c: char): (p: Parse)
    requires i <= |m| && c != '\0'
    ensures TokenSteps(m, i, p)
  {
    if At(m, i) == c then Accept(i + 1, Nil) else Reject(i, Nil)
  }

  function TwoTokens(m: string, i: nat, c: char, d: char): (p: Parse)
    requires i <= |m| && c != '\0' && d != '\0'
    ensures TokenSteps(m, i, p)
  {
    if At(m, i) == c && At(m, i + 1) == d then Accept(i + 2, Nil) else Reject(i, Nil)
  }

  function CharClass(m: string, i: nat, cls: CString): (p: Parse)
    requires i <= |m|
    ensures TokenSteps(m, i, p)
  {
    if At(m, i) in cls then Accept(i + 1, Nil) else Reject(i, Nil)
  }

  function CharRun(m: string, i: nat, c: char -> bool): (p: Parse)
    requires i <= |m|
    ensures TokenSteps(m, i, p)
  {
    var j := RunEnd(m, i, c);
    if j > i then Accept(j, Nil) else Reject(i, Nil)
  }

  function NumberStart(m: string, i: nat): (k: nat)
    requires i <= |m|
    ensures i <= k <= |m|
  {
    if At(m, i) == 'n' then i + 1 else i
  }

  // On failure the cursor stays behind a leading 'n'.
  function Number(m: string, i: nat): (p: Parse)
    requires i <= |m|
    ensures !p.StepsBack? && p.t == Nil && i <= p.next <= |m| && (p.Accept? ==> i < p.next)
  {
    var k := NumberStart(m, i);
    var j := RunEnd(m, k, IsDigit);
    if j > k then Accept(j, Nil) else Reject(k, Nil)
  }

  function NumberValue(m: string, i: nat): int
    requires i <= |m|
  {
    var k := NumberStart(m, i);
    var n: int := ValueAt(m, k, RunEnd(m, k, IsDigit));
    if k > i then -n else n
  }

  const ANON_PREFIX: CString := "_GLOBAL__N_"

  predicate IsAnonymousNamespace(m: string, i: nat, length: int)
  {
    length > |ANON_PREFIX| && HasPrefix(m, i, ANON_PREFIX)
  }

  // What an identifier of the given length prints; a length of zero prints nothing.
  function IdentifierText(m: string, i: nat, length: int): string
    requires i <= |m| && Remaining(m, i, length)
  {
    if IsAnonymousNamespace(m, i, length) then "(anonymous namespace)"
    else if length <= 0 then "" else m[i..i + length]
  }

  // <source-name>: a length and that many characters.  A length of -1 is
  // refused; any other negative length moves the cursor backwards.
  function SourceName(m: string, i: nat): (p: Parse)
    requires i <= |m|
    ensures p.Accept? ==> i < p.next <= |m| && Clean(p.t)
    ensures p.Reject? ==> p.next == i && Settled(p.t) && Clean(p.t)
  {
    var a := Number(m, i);
    if a.Reject? then Reject(i, Abandon(a.t)) else
    var n := NumberValue(m, i);
    if n == -1 || !Remaining(m, a.next, n) then Reject(i, Abandon(a.t))
    else if a.next + n <= i then StepsBack(a.next + n)
    else Accept(a.next + n, Then(a.t, Put(IdentifierText(m, a.next, n))))
  }

  // On failure the cursor stays behind the 'B'.
  function AbiTag(m: string, i: nat): (p: Parse)
    requires i <= |m|
    ensures Drifts(m, i, p)
  {
    var a :- Token(m, i, 'B');
    a.Before(SourceName(m, a.next))
  }

  function NVOffset(m: string, i: nat): (p: Parse)
    requires i <= |m|
    ensures !p.StepsBack? && p.t == Nil && i <= p.next <= |m| && (p.Accept? ==> i < p.next)
  {
    Number(m, i)
  }

  function VOffset(m: string, i: nat): (p: Parse)
    requires i <= |m|
    ensures TokenSteps(m, i, p)
  {
    (var a :- Number(m, i); var b :- a.Before(Token(m, a.next, '_')); b.Before(Number(m, b.next))).OrBackTo(i)
  }

  function HOffset(m: string, i: nat): (p: Parse)
    requires i <= |m|
    ensures TokenSteps(m, i, p)
  {
    (var a :- Token(m, i, 'h');
     var b :- a.Before(NVOffset(m, a.next));
     b.Before(Token(m, b.next, '_'))).OrBackTo(i)
  }

  function VirtualOffset(m: string, i: nat): (p: Parse)
    requires i <= |m|
    ensures TokenSteps(m, i, p)
  {
    (var a :- Token(m, i, 'v');
     var b :- a.Before(VOffset(m, a.next));
     b.Before(Token(m, b.next, '_'))).OrBackTo(i)
  }

  function CallOffset(m: string, i: nat): (p: Parse)
    requires i <= |m|
    ensures TokenSteps(m, i, p)
  {
    var a := HOffset(m, i);
    if !a.Reject? then a else
    a.Before(VirtualOffset(m, i))
  }

  function Discriminator(m: string, i: nat): (p: Parse)
    requires i <= |m|
    ensures TokenSteps(m, i, p)
  {
    (var a :- Token(m, i, '_'); a.Before(Number(m, a.next))).OrBackTo(i)
  }

  function CtorDtorName(m: string, i: nat): (p: Parse)
    requires i <= |m|
    ensures TokenSteps(m, i, p)
  {
    var x := (var a :- Token(m, i, 'C'); a.Before(CharClass(m, a.next, "123"))).OrBackTo(i);
    if x.Accept? then Accept(x.next, Then(x.t, PutPrevName)) else
    var y := x.Before((var a :- Token(m, i, 'D'); a.Before(CharClass(m, a.next, "012"))).OrBackTo(i));
    if y.Accept? then Accept(y.next, Then(y.t, Then(Put("~"), PutPrevName))) else y
  }

  // Skip one optional qualifier.
  function Skip(m: string, i: nat, c: char): (j: nat)
    requires i <= |m| && c != '\0'
    ensures i <= j <= |m|
  {
    if At(m, i) == c then i + 1 else i
  }

  function CVQualifiers(m: string, i: nat): (p: Parse)
    requires i <= |m|
    ensures TokenSteps(m, i, p)
  {
    var j := Skip(m, Skip(m, Skip(m, i, 'r'), 'V'), 'K');
    if j > i then Accept(j, Nil) else Reject(i, Nil)
  }

  function TemplateParam(m: string, i: nat): (p: Parse)
    requires i <= |m|
    ensures TokenSteps(m, i, p)
  {
    var x := TwoTokens(m, i, 'T', '_').AndPut("?");
    if x.Accept? then x else
    x.Before((var a :- Token(m, i, 'T'); var b :- a.Before(Number(m, a.next));
              b.Before(Token(m, b.next, '_'))).OrBackTo(i).AndPut("?"))
  }

  // std, or std:: and the abbreviated name.
  function SubstitutionTrace(name: string): (t: Trace)
    ensures Clean(t)
  {
    var qualified := Then(Put("::"), Put(name));
    assert Clean(qualified);
    if At(name, 0) != '\0' then Then(Put("std"), qualified) else Put("std")
  }

  function Substitution(m: string, i: nat): (p: Parse)
    requires i <= |m|
    ensures TokenSteps(m, i, p)
  {
    var x := TwoTokens(m, i, 'S', '_').AndPut("?");
    if x.Accept? then x else
    var y := x.Before((var a :- Token(m, i, 'S'); var b :- a.Before(CharRun(m, a.next, IsSeqIdChar));
                       b.Before(Token(m, b.next, '_'))).OrBackTo(i).AndPut("?"));
    if y.Accept? then y else y.Before(SubstitutionAbbreviation(m, i))
  }

  // St, Sa, Sb, ...
  function SubstitutionAbbreviation(m: string, i: nat): (p: Parse)
    requires i <= |m|
    ensures TokenSteps(m, i, p)
  {
    if At(m, i) == 'S' && i + 1 < |m| && FindSubstitution(m[i + 1]) < |Substitutions.Entries()|
    then Accept(i + 2, SubstitutionTrace(Substitutions.Entries()[FindSubstitution(m[i + 1])].realName))
    else Reject(i, Abandon(Nil))
  }

  function TemplateTemplateParam(m: string, i: nat): (p: Parse)
    requires i <= |m|
    ensures TokenSteps(m, i, p)
  {
    var x := TemplateParam(m, i);
    if x.Accept? then x else x.Before(Substitution(m, i))
  }

  // ----- names ---------------------------------------------------------------

  function LocalSourceName(m: string, i: nat): (p: Parse)
    requires i <= |m|
    ensures Steps(m, i, p)
  {
    (var a :- Token(m, i, 'L'); var b :- a.Before(SourceName(m, a.next));
     b.Before(Discriminator(m, b.next).Optional())).OrBackTo(i)
  }

  function AbiTags(m: string, i: nat): (p: Parse)
    requires i <= |m|
    ensures Steps(m, i, p)
    decreases |m| - i, 14
  {
    OneOrMore(FAbiTag, m, i).Quietly().OrBackTo(i)
  }

  // v <digit> <source-name>
  function VendorOperator(m: string, i: nat): (p: Parse)
    requires i <= |m|
    ensures Steps(m, i, p)
    decreases |m| - i, 0
  {
    (var a :- Token(m, i, 'v');
     var b :- a.Before(CharClass(m, a.next, "0123456789"));
     b.Before(SourceName(m, b.next))).OrBackTo(i)
  }

  function OperatorName(m: string, i: nat): (p: Parse)
    requires i <= |m|
    ensures Steps(m, i, p)
    decreases |m| - i, 1
  {
    if !Remaining(m, i, 2) then Reject(i, Nil) else
    var x := CastOperator(m, i);
    if !x.Reject? then x else
    var y := x.Before(VendorOperator(m, i));
    if !y.Reject? then y else y.Before(OperatorSymbol(m, i))
  }

  // cv <type>, printed at nesting level 0
  function CastOperator(m: string, i: nat): (p: Parse)
    requires i <= |m|
    ensures Steps(m, i, p)
    decreases |m| - i, 0
  {
    (var a :- TwoTokens(m, i, 'c', 'v').AndPut("operator ");
     a.Before(Type(m, a.next).AtLevelZero())).OrBackTo(i)
  }

  // The operator's symbol, set off by a space when it is a word.
  function OperatorTrace(symbol: string): (t: Trace)
    ensures Clean(t)
  {
    var word := Then(Put(" "), Put(symbol));
    assert Clean(word);
    if IsLower(At(symbol, 0)) then Then(Put("operator"), word) else Then(Put("operator"), Put(symbol))
  }

  // nw, na, ... from the table of operators.
  function OperatorSymbol(m: string, i: nat): (p: Parse)
    requires i <= |m|
    ensures TokenSteps(m, i, p)
  {
    if IsLower(At(m, i)) && IsAlpha(At(m, i + 1)) && FindOperator(m[i], m[i + 1]) < |Operators.Entries()|
    then Accept(i + 2, OperatorTrace(Operators.Entries()[FindOperator(m[i], m[i + 1])].realName)) else Reject(i, Nil)
  }

  function UnqualifiedName(m: string, i: nat): (p: Parse)
    requires i <= |m|
    ensures Steps(m, i, p)
    decreases |m| - i, 2
  {
    var x := OperatorName(m, i);
    if !x.Reject? then x else
    var y := x.Before(CtorDtorName(m, i));
    if !y.Reject? then y else
    var z := y.Before(SourceName(m, i));
    if z.StepsBack? then z else
    if z.Accept? then z.Before(AbiTags(m, z.next).Optional()) else
    var w := z.Before(LocalSourceName(m, i));
    if w.Accept? then w.Before(AbiTags(m, w.next).Optional()) else w
  }

  // St <unqualified-name>
  function StdName(m: string, i: nat): (p: Parse)
    requires i <= |m|
    ensures Steps(m, i, p)
    decreases |m| - i, 0
  {
    (var a :- TwoTokens(m, i, 'S', 't').AndPut("std::");
     a.Before(UnqualifiedName(m, a.next))).OrBackTo(i)
  }

  function UnscopedName(m: string, i: nat): (p: Parse)
    requires i <= |m|
    ensures Steps(m, i, p)
    decreases |m| - i, 3
  {
    var a := UnqualifiedName(m, i);
    if !a.Reject? then a else
    a.Before(StdName(m, i))
  }

  function UnscopedTemplateName(m: string, i: nat): (p: Parse)
    requires i <= |m|
    ensures Steps(m, i, p)
    decreases |m| - i, 4
  {
    var a := UnscopedName(m, i);
    if !a.Reject? then a else
    a.Before(Substitution(m, i))
  }

  // One more component of a prefix.
  function PrefixItem(m: string, i: nat): (p: Parse)
    requires i <= |m|
    ensures Steps(m, i, p)
    decreases |m| - i, 4
  {
    var x := TemplateParam(m, i);
    if !x.Reject? then x else
    var y := x.Before(Substitution(m, i));
    if !y.Reject? then y else y.Before(UnscopedName(m, i))
  }

  // The loop of ParsePrefix; has is its has_something.  It always succeeds and
  // may leave another nesting level.
  function Prefix(m: string, i: nat, has: bool): (p: Parse)
    requires i <= |m|
    ensures !p.Reject? && (p.Accept? ==> i <= p.next <= |m| && Sane(p.t))
    ensures p.StepsBack? ==> !Tame(m)
    decreases |m| - i, 5
  {
    var x := PrefixItem(m, i);
    if x.StepsBack? then x else
    if x.Accept? then
      var component := Then(x.t, Deeper);
      assert Sane(component);
      Accept(x.next, Then(Separate, component)).Before(Prefix(m, x.next, true))
    else
    var y := Accept(i, Retract(x.t));
    if !has then y else
    var z := y.Before(TemplateArgs(m, i));
    if z.Accept? then z.Before(Prefix(m, z.next, false)) else z.Optional()
  }

  function NestedName(m: string, i: nat): (p: Parse)
    requires i <= |m|
    ensures Steps(m, i, p)
    decreases |m| - i, 1
  {
    (var a :- Token(m, i, 'N');
     var q := CVQualifiers(m, a.next).Optional();
     var b :- a.Before(q.Before(Prefix(m, q.next, false)).AtLevelZero());
     b.Before(Token(m, b.next, 'E'))).OrBackTo(i)
  }

  // Z <encoding> E <name> [<discriminator>]
  function LocalEntity(m: string, i: nat): (p: Parse)
    requires i <= |m|
    ensures Steps(m, i, p)
    decreases |m| - i, 0
  {
    (var a :- Token(m, i, 'Z');
     var b :- a.Before(Encoding(m, a.next));
     var c :- b.Before(Token(m, b.next, 'E')).AndPut("::");
     var d :- c.Before(Name(m, c.next));
     d.Before(Discriminator(m, d.next).Optional())).OrBackTo(i)
  }

  // Z <encoding> E s [<discriminator>]
  function LocalString(m: string, i: nat): (p: Parse)
    requires i <= |m|
    ensures Steps(m, i, p)
    decreases |m| - i, 0
  {
    (var a :- Token(m, i, 'Z');
     var b :- a.Before(Encoding(m, a.next));
     var c :- b.Before(TwoTokens(m, b.next, 'E', 's'));
     c.Before(Discriminator(m, c.next).Optional())).OrBackTo(i)
  }

  function LocalName(m: string, i: nat): (p: Parse)
    requires i <= |m|
    ensures Steps(m, i, p)
    decreases |m| - i, 1
  {
    var a := LocalEntity(m, i);
    if !a.Reject? then a else
    a.Before(LocalString(m, i))
  }

  // <unscoped-template-name> <template-args>
  function TemplateName(m: string, i: nat): (p: Parse)
    requires i <= |m|
    ensures Steps(m, i, p)
    decreases |m| - i, 5
  {
    (var a :- UnscopedTemplateName(m, i);
     a.Before(TemplateArgs(m, a.next))).OrBackTo(i)
  }

  function Name(m: string, i: nat): (p: Parse)
    requires i <= |m|
    ensures Steps(m, i, p)
    decreases |m| - i, 6
  {
    var a := NestedName(m, i);
    if !a.Reject? then a else
    var b := a.Before(LocalName(m, i));
    if !b.Reject? then b else
    var c := b.Before(TemplateName(m, i));
    if !c.Reject? then c else
    c.Before(UnscopedName(m, i))
  }

  // <name> <bare-function-type>
  function FunctionEncoding(m: string, i: nat): (p: Parse)
    requires i <= |m|
    ensures Steps(m, i, p)
    decreases |m| - i, 7
  {
    (var a :- Name(m, i);
     a.Before(BareFunctionType(m, a.next))).OrBackTo(i)
  }

  function Encoding(m: string, i: nat): (p: Parse)
    requires i <= |m|
    ensures Steps(m, i, p)
    decreases |m| - i, 8
  {
    var a := FunctionEncoding(m, i);
    if !a.Reject? then a else
    var b := a.Before(Name(m, i));
    if !b.Reject? then b else
    b.Before(SpecialName(m, i))
  }

  // On failure the cursor may stay behind "_Z".
  function MangledName(m: string, i: nat): (p: Parse)
    requires i <= |m|
    ensures Drifts(m, i, p)
    decreases |m| - i, 0
  {
    var a :- TwoTokens(m, i, '_', 'Z');
    a.Before(Encoding(m, a.next))
  }

  // TV, TT, TI and TS <type>
  function VirtualTable(m: string, i: nat): (p: Parse)
    requires i <= |m|
    ensures Steps(m, i, p)
    decreases |m| - i, 0
  {
    (var a :- Token(m, i, 'T');
     var b :- a.Before(CharClass(m, a.next, "VTIS"));
     b.Before(Type(m, b.next))).OrBackTo(i)
  }

  // Tc <call-offset> <call-offset> <encoding>
  function CovariantThunk(m: string, i: nat): (p: Parse)
    requires i <= |m|
    ensures Steps(m, i, p)
    decreases |m| - i, 0
  {
    (var a :- TwoTokens(m, i, 'T', 'c');
     var b :- a.Before(CallOffset(m, a.next));
     var c :- b.Before(CallOffset(m, b.next));
     c.Before(Encoding(m, c.next))).OrBackTo(i)
  }

  // GV <name>
  function GuardVariable(m: string, i: nat): (p: Parse)
    requires i <= |m|
    ensures Steps(m, i, p)
    decreases |m| - i, 0
  {
    (var a :- TwoTokens(m, i, 'G', 'V');
     a.Before(Name(m, a.next))).OrBackTo(i)
  }

  // T <call-offset> <encoding>
  function Thunk(m: string, i: nat): (p: Parse)
    requires i <= |m|
    ensures Steps(m, i, p)
    decreases |m| - i, 0
  {
    (var a :- Token(m, i, 'T');
     var b :- a.Before(CallOffset(m, a.next));
     b.Before(Encoding(m, b.next))).OrBackTo(i)
  }

  // TC <type> <number> _ <type>, whose second type is not printed
  function ConstructionTable(m: string, i: nat): (p: Parse)
    requires i <= |m|
    ensures Steps(m, i, p)
    decreases |m| - i, 0
  {
    (var a :- TwoTokens(m, i, 'T', 'C');
     var b :- a.Before(Type(m, a.next));
     var c :- b.Before(Number(m, b.next));
     var d :- c.Before(Token(m, c.next, '_'));
     d.Before(Type(m, d.next).Quietly())).OrBackTo(i)
  }

  // TF and TJ <type>
  function JavaType(m: string, i: nat): (p: Parse)
    requires i <= |m|
    ensures Steps(m, i, p)
    decreases |m| - i, 0
  {
    (var a :- Token(m, i, 'T');
     var b :- a.Before(CharClass(m, a.next, "FJ"));
     b.Before(Type(m, b.next))).OrBackTo(i)
  }

  // GR <name>
  function ReferenceTemporary(m: string, i: nat): (p: Parse)
    requires i <= |m|
    ensures Steps(m, i, p)
    decreases |m| - i, 0
  {
    (var a :- TwoTokens(m, i, 'G', 'R');
     a.Before(Name(m, a.next))).OrBackTo(i)
  }

  // GA <encoding>
  function HiddenAlias(m: string, i: nat): (p: Parse)
    requires i <= |m|
    ensures Steps(m, i, p)
    decreases |m| - i, 0
  {
    (var a :- TwoTokens(m, i, 'G', 'A');
     a.Before(Encoding(m, a.next))).OrBackTo(i)
  }

  // Th and Tv <call-offset> <encoding>
  function OffsetThunk(m: string, i: nat): (p: Parse)
    requires i <= |m|
    ensures Steps(m, i, p)
    decreases |m| - i, 0
  {
    (var a :- Token(m, i, 'T');
     var b :- a.Before(CharClass(m, a.next, "hv"));
     var c :- b.Before(CallOffset(m, b.next));
     c.Before(Encoding(m, c.next))).OrBackTo(i)
  }

  function SpecialName(m: string, i: nat): (p: Parse)
    requires i <= |m|
    ensures Steps(m, i, p)
    decreases |m| - i, 1
  {
    var a := VirtualTable(m, i);
    if !a.Reject? then a else
    var b := a.Before(CovariantThunk(m, i));
    if !b.Reject? then b else
    var c := b.Before(GuardVariable(m, i));
    if !c.Reject? then c else
    var d := c.Before(Thunk(m, i));
    if !d.Reject? then d else
    var e := d.Before(ConstructionTable(m, i));
    if !e.Reject? then e else
    var f := e.Before(JavaType(m, i));
    if !f.Reject? then f else
    var g := f.Before(ReferenceTemporary(m, i));
    if !g.Reject? then g else
    var h := g.Before(HiddenAlias(m, i));
    if !h.Reject? then h else
    h.Before(OffsetThunk(m, i))
  }

  // The whole name: an encoding, then nothing, clone suffixes or a version suffix,
  // which is printed.
  function TopLevelMangledName(m: string): (p: Parse)
    ensures p.Accept? ==> 0 < p.next <= |m| && Clean(p.t)
    ensures p.StepsBack? ==> !Tame(m)
  {
    var x :- MangledName(m, 0);
    if x.next == |m| || IsFunctionCloneSuffix(m[x.next..]) then x
    else if m[x.next] == '@' then x.AndPut(m[x.next..])
    else Reject(x.next, x.t)
  }

  // ----- types ---------------------------------------------------------------

  function BuiltinType(m: string, i: nat): (p: Parse)
    requires i <= |m|
    ensures Steps(m, i, p)
  {
    if i < |m| && FindBuiltin(m[i]) < |BuiltinTypes.Entries()|
    then Accept(i + 1, Put(BuiltinTypes.Entries()[FindBuiltin(m[i])].realName)) else
    (var a :- Token(m, i, 'u'); a.Before(SourceName(m, a.next))).OrBackTo(i)
  }

  function FunctionType(m: string, i: nat): (p: Parse)
    requires i <= |m|
    ensures Steps(m, i, p)
    decreases |m| - i, 1
  {
    (var a :- Token(m, i, 'F'); var b :- a.Before(BareFunctionType(m, Skip(m, a.next, 'Y')));
     b.Before(Token(m, b.next, 'E'))).OrBackTo(i)
  }

  // The parameter types are parsed with append off and printed as ().
  function BareFunctionType(m: string, i: nat): (p: Parse)
    requires i <= |m|
    ensures Steps(m, i, p)
    decreases |m| - i, 14
  {
    OneOrMore(FType, m, i).Quietly().OrBackTo(i).AndPut("()")
  }

  function ClassEnumType(m: string, i: nat): (p: Parse)
    requires i <= |m|
    ensures Steps(m, i, p)
    decreases |m| - i, 7
  {
    Name(m, i)
  }

  // A <number> _ <type>
  function FixedArray(m: string, i: nat): (p: Parse)
    requires i <= |m|
    ensures Steps(m, i, p)
    decreases |m| - i, 0
  {
    (var a :- Token(m, i, 'A');
     var b :- a.Before(Number(m, a.next));
     var c :- b.Before(Token(m, b.next, '_'));
     c.Before(Type(m, c.next))).OrBackTo(i)
  }

  // A [<expression>] _ <type>
  function DependentArray(m: string, i: nat): (p: Parse)
    requires i <= |m|
    ensures Steps(m, i, p)
    decreases |m| - i, 0
  {
    (var a :- Token(m, i, 'A');
     var b :- a.Before(Expression(m, a.next).Optional());
     var c :- b.Before(Token(m, b.next, '_'));
     c.Before(Type(m, c.next))).OrBackTo(i)
  }

  function ArrayType(m: string, i: nat): (p: Parse)
    requires i <= |m|
    ensures Steps(m, i, p)
    decreases |m| - i, 1
  {
    var a := FixedArray(m, i);
    if !a.Reject? then a else
    a.Before(DependentArray(m, i))
  }

  function PointerToMemberType(m: string, i: nat): (p: Parse)
    requires i <= |m|
    ensures Steps(m, i, p)
    decreases |m| - i, 1
  {
    (var a :- Token(m, i, 'M'); var b :- a.Before(Type(m, a.next)); b.Before(Type(m, b.next))).OrBackTo(i)
  }

  // <CV-qualifiers> <type>
  function QualifiedType(m: string, i: nat): (p: Parse)
    requires i <= |m|
    ensures Steps(m, i, p)
    decreases |m| - i, 0
  {
    (var a :- CVQualifiers(m, i);
     a.Before(Type(m, a.next))).OrBackTo(i)
  }

  // O, P, R, C and G <type>
  function IndirectType(m: string, i: nat): (p: Parse)
    requires i <= |m|
    ensures Steps(m, i, p)
    decreases |m| - i, 0
  {
    (var a :- CharClass(m, i, "OPRCG");
     a.Before(Type(m, a.next))).OrBackTo(i)
  }

  // Dp <type>
  function PackExpansion(m: string, i: nat): (p: Parse)
    requires i <= |m|
    ensures Steps(m, i, p)
    decreases |m| - i, 0
  {
    (var a :- TwoTokens(m, i, 'D', 'p');
     a.Before(Type(m, a.next))).OrBackTo(i)
  }

  // Dt and DT <expression> E
  function Decltype(m: string, i: nat): (p: Parse)
    requires i <= |m|
    ensures Steps(m, i, p)
    decreases |m| - i, 0
  {
    (var a :- Token(m, i, 'D');
     var b :- a.Before(CharClass(m, a.next, "tT"));
     var c :- b.Before(Expression(m, b.next));
     c.Before(Token(m, c.next, 'E'))).OrBackTo(i)
  }

  // U <source-name> <type>
  function VendorType(m: string, i: nat): (p: Parse)
    requires i <= |m|
    ensures Steps(m, i, p)
    decreases |m| - i, 0
  {
    (var a :- Token(m, i, 'U');
     var b :- a.Before(SourceName(m, a.next));
     b.Before(Type(m, b.next))).OrBackTo(i)
  }

  // <template-template-param> <template-args>
  function TemplateTemplateType(m: string, i: nat): (p: Parse)
    requires i <= |m|
    ensures Steps(m, i, p)
    decreases |m| - i, 0
  {
    (var a :- TemplateTemplateParam(m, i);
     a.Before(TemplateArgs(m, a.next))).OrBackTo(i)
  }

  // The alternatives with a mark in front.
  function MarkedType(m: string, i: nat): (p: Parse)
    requires i <= |m|
    ensures Steps(m, i, p)
    decreases |m| - i, 8
  {
    var a := QualifiedType(m, i);
    if !a.Reject? then a else
    var b := a.Before(IndirectType(m, i));
    if !b.Reject? then b else
    var c := b.Before(PackExpansion(m, i));
    if !c.Reject? then c else
    var d := c.Before(Decltype(m, i));
    if !d.Reject? then d else
    d.Before(VendorType(m, i))
  }

  // The alternatives that are parsing functions of their own.
  function UnmarkedType(m: string, i: nat): (p: Parse)
    requires i <= |m|
    ensures Steps(m, i, p)
    decreases |m| - i, 8
  {
    var f := BuiltinType(m, i);
    if !f.Reject? then f else
    var g := f.Before(FunctionType(m, i));
    if !g.Reject? then g else
    var h := g.Before(ClassEnumType(m, i));
    if !h.Reject? then h else
    var j := h.Before(ArrayType(m, i));
    if !j.Reject? then j else
    var k := j.Before(PointerToMemberType(m, i));
    if !k.Reject? then k else
    k.Before(Substitution(m, i))
  }

  function Type(m: string, i: nat): (p: Parse)
    requires i <= |m|
    ensures Steps(m, i, p)
    decreases |m| - i, 9
  {
    var a := MarkedType(m, i);
    if !a.Reject? then a else
    var b := a.Before(UnmarkedType(m, i));
    if !b.Reject? then b else
    var c := b.Before(TemplateTemplateType(m, i));
    if !c.Reject? then c else
    c.Before(TemplateParam(m, i))
  }

  // ----- template arguments and expressions -----------------------------------

  // The arguments are parsed with append off and printed as <>.
  function TemplateArgs(m: string, i: nat): (p: Parse)
    requires i <= |m|
    ensures Steps(m, i, p)
    decreases |m| - i, 1
  {
    (var a :- Token(m, i, 'I'); var b :- a.Before(OneOrMore(FTemplateArg, m, a.next));
     b.Before(Token(m, b.next, 'E'))).Quietly().OrBackTo(i).AndPut("<>")
  }

  // I and J <template-arg>* E
  function ArgumentPack(m: string, i: nat): (p: Parse)
    requires i <= |m|
    ensures Steps(m, i, p)
    decreases |m| - i, 0
  {
    (var a :- CharClass(m, i, "IJ");
     var b :- a.Before(ZeroOrMore(FTemplateArg, m, a.next));
     b.Before(Token(m, b.next, 'E'))).OrBackTo(i)
  }

  // X <expression> E
  function ExpressionArg(m: string, i: nat): (p: Parse)
    requires i <= |m|
    ensures Steps(m, i, p)
    decreases |m| - i, 0
  {
    (var a :- Token(m, i, 'X');
     var b :- a.Before(Expression(m, a.next));
     b.Before(Token(m, b.next, 'E'))).OrBackTo(i)
  }

  function TypeOrLiteral(m: string, i: nat): (p: Parse)
    requires i <= |m|
    ensures Steps(m, i, p)
    decreases |m| - i, 10
  {
    var x := Type(m, i);
    if !x.Reject? then x else x.Before(ExprPrimary(m, i)).OrBackTo(i)
  }

  function TemplateArg(m: string, i: nat): (p: Parse)
    requires i <= |m|
    ensures Steps(m, i, p)
    decreases |m| - i, 11
  {
    var a := ArgumentPack(m, i);
    if !a.Reject? then a else
    var b := a.Before(TypeOrLiteral(m, i));
    if !b.Reject? then b else
    b.Before(ExpressionArg(m, i))
  }

  // <operator-name> and three expressions
  function Ternary(m: string, i: nat): (p: Parse)
    requires i <= |m|
    ensures Steps(m, i, p)
    decreases |m| - i, 2
  {
    (var a :- OperatorName(m, i);
     var b :- a.Before(Expression(m, a.next));
     var c :- b.Before(Expression(m, b.next));
     c.Before(Expression(m, c.next))).OrBackTo(i)
  }

  // <operator-name> and two expressions
  function Binary(m: string, i: nat): (p: Parse)
    requires i <= |m|
    ensures Steps(m, i, p)
    decreases |m| - i, 2
  {
    (var a :- OperatorName(m, i);
     var b :- a.Before(Expression(m, a.next));
     b.Before(Expression(m, b.next))).OrBackTo(i)
  }

  // <operator-name> <expression>
  function Unary(m: string, i: nat): (p: Parse)
    requires i <= |m|
    ensures Steps(m, i, p)
    decreases |m| - i, 2
  {
    (var a :- OperatorName(m, i);
     a.Before(Expression(m, a.next))).OrBackTo(i)
  }

  // st <type>
  function SizeofType(m: string, i: nat): (p: Parse)
    requires i <= |m|
    ensures Steps(m, i, p)
    decreases |m| - i, 0
  {
    (var a :- TwoTokens(m, i, 's', 't');
     a.Before(Type(m, a.next))).OrBackTo(i)
  }

  // sr <type> <unqualified-name> <template-args>
  function ScopedTemplate(m: string, i: nat): (p: Parse)
    requires i <= |m|
    ensures Steps(m, i, p)
    decreases |m| - i, 0
  {
    (var a :- TwoTokens(m, i, 's', 'r');
     var b :- a.Before(Type(m, a.next));
     var c :- b.Before(UnqualifiedName(m, b.next));
     c.Before(TemplateArgs(m, c.next))).OrBackTo(i)
  }

  // sr <type> <unqualified-name>
  function Scoped(m: string, i: nat): (p: Parse)
    requires i <= |m|
    ensures Steps(m, i, p)
    decreases |m| - i, 0
  {
    (var a :- TwoTokens(m, i, 's', 'r');
     var b :- a.Before(Type(m, a.next));
     b.Before(UnqualifiedName(m, b.next))).OrBackTo(i)
  }

  function Expression(m: string, i: nat): (p: Parse)
    requires i <= |m|
    ensures Steps(m, i, p)
    decreases |m| - i, 3
  {
    var a := TemplateParam(m, i);
    if !a.Reject? then a else
    var b := a.Before(ExprPrimary(m, i));
    if !b.Reject? then b else
    var c := b.Before(Ternary(m, i));
    if !c.Reject? then c else
    var d := c.Before(Binary(m, i));
    if !d.Reject? then d else
    var e := d.Before(Unary(m, i));
    if !e.Reject? then e else
    var f := e.Before(SizeofType(m, i));
    if !f.Reject? then f else
    var g := f.Before(ScopedTemplate(m, i));
    if !g.Reject? then g else
    g.Before(Scoped(m, i))
  }

  // L <type> <number> E
  function IntegerLiteral(m: string, i: nat): (p: Parse)
    requires i <= |m|
    ensures Steps(m, i, p)
    decreases |m| - i, 0
  {
    (var a :- Token(m, i, 'L');
     var b :- a.Before(Type(m, a.next));
     var c :- b.Before(Number(m, b.next));
     c.Before(Token(m, c.next, 'E'))).OrBackTo(i)
  }

  // L <type> <float> E
  function FloatLiteral(m: string, i: nat): (p: Parse)
    requires i <= |m|
    ensures Steps(m, i, p)
    decreases |m| - i, 0
  {
    (var a :- Token(m, i, 'L');
     var b :- a.Before(Type(m, a.next));
     var c :- b.Before(CharRun(m, b.next, IsFloatChar));
     c.Before(Token(m, c.next, 'E'))).OrBackTo(i)
  }

  // L <mangled-name> E
  function NameLiteral(m: string, i: nat): (p: Parse)
    requires i <= |m|
    ensures Steps(m, i, p)
    decreases |m| - i, 0
  {
    (var a :- Token(m, i, 'L');
     var b :- a.Before(MangledName(m, a.next));
     b.Before(Token(m, b.next, 'E'))).OrBackTo(i)
  }

  // LZ <encoding> E
  function EncodingLiteral(m: string, i: nat): (p: Parse)
    requires i <= |m|
    ensures Steps(m, i, p)
    decreases |m| - i, 0
  {
    (var a :- TwoTokens(m, i, 'L', 'Z');
     var b :- a.Before(Encoding(m, a.next));
     b.Before(Token(m, b.next, 'E'))).OrBackTo(i)
  }

  function ExprPrimary(m: string, i: nat): (p: Parse)
    requires i <= |m|
    ensures Steps(m, i, p)
    decreases |m| - i, 1
  {
    var a := IntegerLiteral(m, i);
    if !a.Reject? then a else
    var b := a.Before(FloatLiteral(m, i));
    if !b.Reject? then b else
    var c := b.Before(NameLiteral(m, i));
    if !c.Reject? then c else
    c.Before(EncodingLiteral(m, i))
  }

  // ----- repetition ------------------------------------------------------------

  function Call(f: ParseFunc, m: string, i: nat): (p: Parse)
    requires i <= |m|
    ensures Drifts(m, i, p)
    ensures p.Reject? && f != FAbiTag ==> p.next == i
    decreases |m| - i, 12
  {
    match f
    case FType => Type(m, i)
    case FAbiTag => AbiTag(m, i)
    case FTemplateArg => TemplateArg(m, i)
  }

  // The loop ends where the call that failed leaves the cursor.
  function ZeroOrMore(f: ParseFunc, m: string, i: nat): (p: Parse)
    requires i <= |m|
    ensures Optionally(m, i, p)
    decreases |m| - i, 13
  {
    var x := Call(f, m, i);
    if x.Accept? then x.Before(ZeroOrMore(f, m, x.next)) else x.Optional()
  }

  function OneOrMore(f: ParseFunc, m: string, i: nat): (p: Parse)
    requires i <= |m|
    ensures Drifts(m, i, p)
    decreases |m| - i, 13
  {
    var x :- Call(f, m, i);
    x.Before(ZeroOrMore(f, m, x.next))
  }
}
