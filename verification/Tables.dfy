// The demangler's tables hold what the ABI says, each entry once.
module Tables {
  import opened Abi
  import opened CStrings

  // ----- operators ------------------------------------------------------------------------

  function OperatorAt(k: nat): Operator
  {
    if k == 0 then New else if k == 1 then NewArray else if k == 2 then Delete else if k == 3 then DeleteArray
    else if k == 4 then UnaryPlus else if k == 5 then Negate else if k == 6 then AddressOf
    else if k == 7 then Dereference else if k == 8 then Complement else if k == 9 then Plus
    else if k == 10 then Minus else if k == 11 then Times else if k == 12 then Divide
    else if k == 13 then Remainder else if k == 14 then BitAnd else if k == 15 then BitOr
    else if k == 16 then BitXor else if k == 17 then Assign else if k == 18 then PlusAssign
    else if k == 19 then MinusAssign else if k == 20 then TimesAssign else if k == 21 then DivideAssign
    else if k == 22 then RemainderAssign else if k == 23 then AndAssign else if k == 24 then OrAssign
    else if k == 25 then XorAssign else if k == 26 then ShiftLeft else if k == 27 then ShiftRight
    else if k == 28 then ShiftLeftAssign else if k == 29 then ShiftRightAssign else if k == 30 then Equal
    else if k == 31 then NotEqual else if k == 32 then Less else if k == 33 then Greater
    else if k == 34 then LessEqual else if k == 35 then GreaterEqual else if k == 36 then Not
    else if k == 37 then And else if k == 38 then Or else if k == 39 then Increment
    else if k == 40 then Decrement else if k == 41 then Comma else if k == 42 then MemberPointer
    else if k == 43 then Arrow else if k == 44 then Call else if k == 45 then Index
    else if k == 46 then Question else if k == 47 then SizeofType else Sizeof
  }

  function OperatorIndex(op: Operator): nat
  {
    match op
    case New => 0 case NewArray => 1 case Delete => 2 case DeleteArray => 3 case UnaryPlus => 4
    case Negate => 5 case AddressOf => 6 case Dereference => 7 case Complement => 8 case Plus => 9
    case Minus => 10 case Times => 11 case Divide => 12 case Remainder => 13 case BitAnd => 14 case BitOr => 15
    case BitXor => 16 case Assign => 17 case PlusAssign => 18 case MinusAssign => 19 case TimesAssign => 20
    case DivideAssign => 21 case RemainderAssign => 22 case AndAssign => 23 case OrAssign => 24
    case XorAssign => 25 case ShiftLeft => 26 case ShiftRight => 27 case ShiftLeftAssign => 28
    case ShiftRightAssign => 29 case Equal => 30 case NotEqual => 31 case Less => 32 case Greater => 33
    case LessEqual => 34 case GreaterEqual => 35 case Not => 36 case And => 37 case Or => 38
    case Increment => 39 case Decrement => 40 case Comma => 41 case MemberPointer => 42 case Arrow => 43
    case Call => 44 case Index => 45 case Question => 46 case SizeofType => 47 case Sizeof => 48
  }

  // The operator with a code.
  function Decoded(c: char, d: char): Operator
  {
    if c == 'n' then
      if d == 'w' then New else if d == 'a' then NewArray else if d == 'g' then Negate
      else if d == 'e' then NotEqual else Not
    else if c == 'd' then
      if d == 'l' then Delete else if d == 'a' then DeleteArray else if d == 'e' then Dereference
      else if d == 'v' then Divide else DivideAssign
    else if c == 'p' then
      if d == 's' then UnaryPlus else if d == 'l' then Plus else if d == 'L' then PlusAssign
      else if d == 'p' then Increment else if d == 'm' then MemberPointer else Arrow
    else if c == 'a' then
      if d == 'd' then AddressOf else if d == 'n' then BitAnd else if d == 'S' then Assign
      else if d == 'N' then AndAssign else And
    else if c == 'c' then
      if d == 'o' then Complement else if d == 'm' then Comma else Call
    else if c == 'm' then
      if d == 'i' then Minus else if d == 'l' then Times else if d == 'I' then MinusAssign
      else if d == 'L' then TimesAssign else Decrement
    else if c == 'r' then
      if d == 'm' then Remainder else if d == 'M' then RemainderAssign else if d == 's' then ShiftRight
      else ShiftRightAssign
    else if c == 'o' then
      if d == 'r' then BitOr else if d == 'R' then OrAssign else Or
    else if c == 'e' then
      if d == 'o' then BitXor else if d == 'O' then XorAssign else Equal
    else if c == 'l' then
      if d == 's' then ShiftLeft else if d == 'S' then ShiftLeftAssign else if d == 't' then Less else LessEqual
    else if c == 'g' then
      if d == 't' then Greater else GreaterEqual
    else if c == 'i' then
      Index
    else if c == 'q' then
      Question
    else
      if d == 't' then SizeofType else Sizeof
  }

  lemma CodeLetters(op: Operator)
    ensures |op.Code()| == 2 && IsLower(op.Code()[0]) && IsAlpha(op.Code()[1]) && op.Symbol() != ""
  {
  }

  lemma DecodedCode(op: Operator)
    ensures |op.Code()| == 2 && IsLower(op.Code()[0]) && IsAlpha(op.Code()[1]) && op.Symbol() != ""
    ensures Decoded(op.Code()[0], op.Code()[1]) == op
  {
    hide Operator.Symbol, IsLower, IsAlpha;
    CodeLetters(op);
  }

  // Entry by entry, ten at a time.
  lemma Entries0(op: Operator)
    requires 0 <= OperatorIndex(op) < 10
    ensures OperatorIndex(op) < |Operators.Entries()|
    ensures Operators.Entries()[OperatorIndex(op)] == Abbrev(op.Code(), op.Symbol())
  {
  }

  lemma Entries1(op: Operator)
    requires 10 <= OperatorIndex(op) < 20
    ensures OperatorIndex(op) < |Operators.Entries()|
    ensures Operators.Entries()[OperatorIndex(op)] == Abbrev(op.Code(), op.Symbol())
  {
  }

  lemma Entries2(op: Operator)
    requires 20 <= OperatorIndex(op) < 30
    ensures OperatorIndex(op) < |Operators.Entries()|
    ensures Operators.Entries()[OperatorIndex(op)] == Abbrev(op.Code(), op.Symbol())
  {
  }

  lemma Entries3(op: Operator)
    requires 30 <= OperatorIndex(op) < 40
    ensures OperatorIndex(op) < |Operators.Entries()|
    ensures Operators.Entries()[OperatorIndex(op)] == Abbrev(op.Code(), op.Symbol())
  {
  }

  lemma Entries4(op: Operator)
    requires 40 <= OperatorIndex(op) < 50
    ensures OperatorIndex(op) < |Operators.Entries()|
    ensures Operators.Entries()[OperatorIndex(op)] == Abbrev(op.Code(), op.Symbol())
  {
  }

  lemma EntryOf(op: Operator)
    ensures OperatorIndex(op) < |Operators.Entries()|
    ensures Operators.Entries()[OperatorIndex(op)] == Abbrev(op.Code(), op.Symbol())
  {
    hide Table.Entries, Operator.Code, Operator.Symbol;
    var k := OperatorIndex(op);
    if k < 10 {
      Entries0(op);
    } else if k < 20 {
      Entries1(op);
    } else if k < 30 {
      Entries2(op);
    } else if k < 40 {
      Entries3(op);
    } else {
      Entries4(op);
    }
  }

  lemma EntryAt(k: nat)
    requires k < |Operators.Entries()|
    ensures OperatorIndex(OperatorAt(k)) == k
  {
  }

  // A search stops at the first entry that fits.
  lemma {:induction false} FindStops(table: seq<Abbrev>, k: nat, p: nat, c: char, d: seq<char>, r: nat)
    requires k <= r < |table| && |d| <= 1
    requires Spells(table[r], p, c) && (|d| == 1 ==> Spells(table[r], p + 1, d[0]))
    ensures Find(table, k, p, c, d) <= r
    decreases r - k
  {
    if k < r {
      FindStops(table, k + 1, p, c, d, r);
    }
  }

  lemma {:induction false} FindSpells(table: seq<Abbrev>, k: nat, p: nat, c: char, d: char)
    requires k <= |table| && Find(table, k, p, c, [d]) < |table|
    ensures Spells(table[Find(table, k, p, c, [d])], p + 1, d)
    decreases |table| - k
  {
    if !(Spells(table[k], p, c) && Spells(table[k], p + 1, d)) {
      FindSpells(table, k + 1, p, c, d);
    }
  }

  // What the search of the table of operators finds.
  lemma OperatorFound(op: Operator)
    ensures FindOperator(op.Code()[0], op.Code()[1]) < |Operators.Entries()|
    ensures Operators.Entries()[FindOperator(op.Code()[0], op.Code()[1])] == Abbrev(op.Code(), op.Symbol())
  {
    hide Table.Entries, Operator.Code, Operator.Symbol, Decoded, OperatorAt, OperatorIndex;
    EntryOf(op);
    DecodedCode(op);
    var c, d := op.Code()[0], op.Code()[1];
    FindStops(Operators.Entries(), 0, 0, c, [d], OperatorIndex(op));
    FindSpells(Operators.Entries(), 0, 0, c, d);
    var k := FindOperator(c, d);
    EntryAt(k);
    EntryOf(OperatorAt(k));
    DecodedCode(OperatorAt(k));
    assert OperatorAt(k) == op;
  }

  lemma Words(op: Operator)
    ensures op.IsWord() <==> IsLower(At(op.Symbol(), 0))
  {
  }

  // It finds nothing else.
  lemma OperatorNotFound(c: char, d: char)
    requires forall op: Operator :: op.Code() != [c, d]
    ensures FindOperator(c, d) == |Operators.Entries()|
  {
    hide Table.Entries;
    var k := FindOperator(c, d);
    if k < |Operators.Entries()| {
      FindSpells(Operators.Entries(), 0, 0, c, d);
      EntryAt(k);
      EntryOf(OperatorAt(k));
      DecodedCode(OperatorAt(k));
      TwoLetters(OperatorAt(k).Code(), c, d);
    }
  }

  lemma TwoLetters(code: string, c: char, d: char)
    requires |code| == 2 && code[0] == c && code[1] == d
    ensures code == [c, d]
  {
  }

  lemma NoOperator(c: char, d: char)
    requires [c, d] == "sr" || [c, d] == "cv" || d == 'E'
    ensures FindOperator(c, d) == |Operators.Entries()|
  {
    forall op: Operator
      ensures op.Code() != [c, d]
    {
      CodesLeftOut(op);
    }
    OperatorNotFound(c, d);
  }

  lemma CodesLeftOut(op: Operator)
    ensures op.Code() != "sr" && op.Code() != "cv" && |op.Code()| == 2 && op.Code()[1] != 'E'
  {
  }

  // ----- builtin types and abbreviations --------------------------------------------------------

  function BuiltinAt(k: nat): Builtin
  {
    if k == 0 then Void else if k == 1 then WChar else if k == 2 then Bool else if k == 3 then Char
    else if k == 4 then SignedChar else if k == 5 then UnsignedChar else if k == 6 then Short
    else if k == 7 then UnsignedShort else if k == 8 then Int else if k == 9 then Unsigned
    else if k == 10 then Long else if k == 11 then UnsignedLong else if k == 12 then LongLong
    else if k == 13 then UnsignedLongLong else if k == 14 then Int128 else if k == 15 then UnsignedInt128
    else if k == 16 then Builtin.Float else if k == 17 then Double else if k == 18 then LongDouble
    else if k == 19 then Float128 else Ellipsis
  }

  function BuiltinIndex(b: Builtin): nat
  {
    match b
    case Void => 0 case WChar => 1 case Bool => 2 case Char => 3 case SignedChar => 4 case UnsignedChar => 5
    case Short => 6 case UnsignedShort => 7 case Int => 8 case Unsigned => 9 case Long => 10
    case UnsignedLong => 11 case LongLong => 12 case UnsignedLongLong => 13 case Int128 => 14
    case UnsignedInt128 => 15 case Float => 16 case Double => 17 case LongDouble => 18 case Float128 => 19
    case Ellipsis => 20
  }

  lemma BuiltinEntry(b: Builtin)
    ensures BuiltinIndex(b) < |BuiltinTypes.Entries()|
    ensures BuiltinTypes.Entries()[BuiltinIndex(b)] == Abbrev([b.Code()], b.Text())
    ensures IsLower(b.Code()) && b.Code() !in {'k', 'p', 'q', 'r', 'u'} && b.Text() != ""
  {
  }

  lemma BuiltinEntryAt(k: nat)
    requires k < |BuiltinTypes.Entries()|
    ensures BuiltinIndex(BuiltinAt(k)) == k
  {
  }

  lemma SameBuiltin(b: Builtin, other: Builtin)
    requires b.Code() == other.Code()
    ensures b == other
  {
  }

  lemma BuiltinFound(b: Builtin)
    ensures FindBuiltin(b.Code()) < |BuiltinTypes.Entries()|
    ensures BuiltinTypes.Entries()[FindBuiltin(b.Code())].realName == b.Text()
  {
    hide Table.Entries;
    BuiltinEntry(b);
    FindStops(BuiltinTypes.Entries(), 0, 0, b.Code(), [], BuiltinIndex(b));
    var k := FindBuiltin(b.Code());
    BuiltinEntryAt(k);
    BuiltinEntry(BuiltinAt(k));
    SameBuiltin(b, BuiltinAt(k));
  }

  lemma StandardFound(s: Standard)
    ensures FindSubstitution(s.Code()) < |Substitutions.Entries()|
    ensures Substitutions.Entries()[FindSubstitution(s.Code())].realName == s.Text() != ""
    ensures IsLower(s.Code()) && s.Code() != 't'
  {
    StandardEntries(s);
  }

  lemma StandardEntries(s: Standard)
    ensures FindSubstitution(s.Code()) < |Substitutions.Entries()|
    ensures Substitutions.Entries()[FindSubstitution(s.Code())].realName == s.Text()
  {
  }

  lemma StdFound()
    ensures FindSubstitution('t') < |Substitutions.Entries()|
    ensures Substitutions.Entries()[FindSubstitution('t')].realName == ""
  {
  }
}
