// The part of the Itanium C++ ABI's mangling that the round trip covers: what is encoded,
// how (section 5.1, External Names), and what a demangler is to print for it.  Nothing here
// refers to the demangler.
module Abi {
  import opened CStrings
  import opened Decimals
  import opened Options

  // ----- operators, builtin types and abbreviations ---------------------------------------

  datatype Operator =
    New | NewArray | Delete | DeleteArray | UnaryPlus | Negate | AddressOf | Dereference | Complement | Plus
    | Minus | Times | Divide | Remainder | BitAnd | BitOr | BitXor | Assign | PlusAssign | MinusAssign
    | TimesAssign | DivideAssign | RemainderAssign | AndAssign | OrAssign | XorAssign | ShiftLeft | ShiftRight
    | ShiftLeftAssign | ShiftRightAssign | Equal | NotEqual | Less | Greater | LessEqual | GreaterEqual | Not
    | And | Or | Increment | Decrement | Comma | MemberPointer | Arrow | Call | Index | Question | SizeofType
    | Sizeof
  {
    function Code(): string
    {
      match this
      case New => "nw" case NewArray => "na" case Delete => "dl" case DeleteArray => "da"
      case UnaryPlus => "ps" case Negate => "ng" case AddressOf => "ad" case Dereference => "de"
      case Complement => "co" case Plus => "pl" case Minus => "mi" case Times => "ml" case Divide => "dv"
      case Remainder => "rm" case BitAnd => "an" case BitOr => "or" case BitXor => "eo" case Assign => "aS"
      case PlusAssign => "pL" case MinusAssign => "mI" case TimesAssign => "mL" case DivideAssign => "dV"
      case RemainderAssign => "rM" case AndAssign => "aN" case OrAssign => "oR" case XorAssign => "eO"
      case ShiftLeft => "ls" case ShiftRight => "rs" case ShiftLeftAssign => "lS" case ShiftRightAssign => "rS"
      case Equal => "eq" case NotEqual => "ne" case Less => "lt" case Greater => "gt" case LessEqual => "le"
      case GreaterEqual => "ge" case Not => "nt" case And => "aa" case Or => "oo" case Increment => "pp"
      case Decrement => "mm" case Comma => "cm" case MemberPointer => "pm" case Arrow => "pt" case Call => "cl"
      case Index => "ix" case Question => "qu" case SizeofType => "st" case Sizeof => "sz"
    }

    function Symbol(): string
    {
      match this
      case New => "new" case NewArray => "new[]" case Delete => "delete" case DeleteArray => "delete[]"
      case UnaryPlus => "+" case Negate => "-" case AddressOf => "&" case Dereference => "*"
      case Complement => "~" case Plus => "+" case Minus => "-" case Times => "*" case Divide => "/"
      case Remainder => "%" case BitAnd => "&" case BitOr => "|" case BitXor => "^" case Assign => "="
      case PlusAssign => "+=" case MinusAssign => "-=" case TimesAssign => "*=" case DivideAssign => "/="
      case RemainderAssign => "%=" case AndAssign => "&=" case OrAssign => "|=" case XorAssign => "^="
      case ShiftLeft => "<<" case ShiftRight => ">>" case ShiftLeftAssign => "<<="
      case ShiftRightAssign => ">>=" case Equal => "==" case NotEqual => "!=" case Less => "<"
      case Greater => ">" case LessEqual => "<=" case GreaterEqual => ">=" case Not => "!" case And => "&&"
      case Or => "||" case Increment => "++" case Decrement => "--" case Comma => ","
      case MemberPointer => "->*" case Arrow => "->" case Call => "()" case Index => "[]" case Question => "?"
      case SizeofType => "sizeof" case Sizeof => "sizeof"
    }

    // Operators that are words are set off by a space.
    predicate IsWord()
    {
      this in {New, NewArray, Delete, DeleteArray, SizeofType, Sizeof}
    }
  }

  datatype Builtin =
    Void | WChar | Bool | Char | SignedChar | UnsignedChar | Short | UnsignedShort | Int | Unsigned | Long
    | UnsignedLong | LongLong | UnsignedLongLong | Int128 | UnsignedInt128 | Float | Double | LongDouble
    | Float128 | Ellipsis
  {
    function Code(): char
    {
      match this
      case Void => 'v' case WChar => 'w' case Bool => 'b' case Char => 'c' case SignedChar => 'a'
      case UnsignedChar => 'h' case Short => 's' case UnsignedShort => 't' case Int => 'i' case Unsigned => 'j'
      case Long => 'l' case UnsignedLong => 'm' case LongLong => 'x' case UnsignedLongLong => 'y'
      case Int128 => 'n' case UnsignedInt128 => 'o' case Float => 'f' case Double => 'd' case LongDouble => 'e'
      case Float128 => 'g' case Ellipsis => 'z'
    }

    function Text(): string
    {
      match this
      case Void => "void" case WChar => "wchar_t" case Bool => "bool" case Char => "char"
      case SignedChar => "signed char" case UnsignedChar => "unsigned char" case Short => "short"
      case UnsignedShort => "unsigned short" case Int => "int" case Unsigned => "unsigned int"
      case Long => "long" case UnsignedLong => "unsigned long" case LongLong => "long long"
      case UnsignedLongLong => "unsigned long long" case Int128 => "__int128"
      case UnsignedInt128 => "unsigned __int128" case Float => "float" case Double => "double"
      case LongDouble => "long double" case Float128 => "__float128" case Ellipsis => "ellipsis"
    }
  }

  // The abbreviations of the standard library.
  datatype Standard = Allocator | BasicString | StdString | IStream | OStream | IOStream {
    function Code(): char
    {
      match this
      case Allocator => 'a' case BasicString => 'b' case StdString => 's'
      case IStream => 'i' case OStream => 'o' case IOStream => 'd'
    }

    function Text(): string
    {
      match this
      case Allocator => "allocator" case BasicString => "basic_string" case StdString => "string"
      case IStream => "istream" case OStream => "ostream" case IOStream => "iostream"
    }
  }

  // ----- what is encoded --------------------------------------------------------------------

  datatype Quals = Quals(restrict: bool, volatile: bool, constant: bool) {
    function Code(): string
    {
      (if restrict then "r" else "") + ((if volatile then "V" else "") + (if constant then "K" else ""))
    }
  }

  datatype Mark = RvalueReference | Pointer | Reference | Complex | Imaginary {
    function Code(): char
    {
      match this
      case RvalueReference => 'O' case Pointer => 'P' case Reference => 'R' case Complex => 'C' case Imaginary => 'G'
    }
  }

  // Types: one constructor for each alternative of <type>.
  datatype Type =
    | Qualified(quals: Quals, of: Type)
    | Marked(mark: Mark, of: Type)
    | Pack(of: Type)
    | Decltype(kind: char, e: Expr)
    | VendorQualified(name: string, of: Type)
    | Fundamental(b: Builtin)
    | VendorType(name: string)
    | FunctionType(externC: bool, types: Types)
    | Class(className: Name)
    | Array(size: nat, of: Type)
    | OpenArray(of: Type)
    | DependentArray(e: Expr, of: Type)
    | MemberOf(owner: Type, of: Type)
    | Abbreviated(s: Standard)
    | Seen(id: string)
    | Param(n: Option<nat>)
    | ParamTemplate(n: Option<nat>, args: Args)

  datatype Types = NoTypes | Types(head: Type, tail: Types)

  // Template arguments; none means that there is no argument list.
  datatype Args = NoArgs | Args(head: Arg, tail: Args)

  datatype Arg = OfType(t: Type) | OfLiteral(l: Literal) | OfPack(open: char, args: Args) | OfExpr(e: Expr)

  // External names are also met without their underscore.
  datatype Literal =
    | Integer(t: Type, n: int)
    | Float(t: Type, digits: string)
    | External(symbol: Encoding)
    | Unprefixed(symbol: Encoding)

  datatype Expr =
    | ParamExpr(n: Option<nat>)
    | LiteralExpr(l: Literal)
    | Unary(op: Operator, a: Expr)
    | Converted(t: Type, a: Expr)
    | Binary(op: Operator, a: Expr, b: Expr)
    | Ternary(op: Operator, a: Expr, b: Expr, c: Expr)
    | SizeofExpr(t: Type)
    | Scoped(t: Type, name: string, args: Args)

  datatype Tags = NoTags | Tags(head: string, tail: Tags)

  datatype Unqualified =
    | Identifier(name: string, tags: Tags)
    | OfOperator(op: Operator)
    | Cast(t: Type)
    | VendorOperator(digit: char, name: string)
    | Local(name: string, disc: Option<nat>, tags: Tags)

  datatype Name =
    | Nested(quals: Quals, path: Path)
    | Entity(of: Encoding, name: Name, disc: Option<nat>)
    | StringLiteral(of: Encoding, disc: Option<nat>)
    | Unscoped(std: bool, u: Unqualified, args: Args)
    | StandardTemplate(s: Standard, args: Args)
    | SeenTemplate(id: string, args: Args)

  // The components of a nested name, each perhaps with template arguments.
  datatype Path = EndOfPath | Path(item: Item, args: Args, tail: Path)

  datatype Item =
    | Named(u: Unqualified)
    | ParamItem(n: Option<nat>)
    | SeenItem(id: string)
    | StandardItem(s: Standard)
    | Std
    | Ctor(kind: char)
    | Dtor(kind: char)

  datatype Offset = Fixed(n: int) | Virtual(n: int, k: int)

  // A function or an object (without parameters), or one of the special names.
  datatype Encoding =
    | Function(name: Name, params: Types)
    | VirtualData(kind: char, t: Type)
    | Guard(name: Name)
    | Temporary(name: Name)
    | Covariant(first: Offset, second: Offset, of: Encoding)
    | ThunkTo(offset: Offset, of: Encoding)
    | Construction(t: Type, n: nat, base: Type)
    | Java(kind: char, t: Type)
    | Hidden(of: Encoding)
    | OffsetThunk(kind: char, offset: Offset, of: Encoding)

  // ----- the encoding -------------------------------------------------------------------------

  function Word(name: string): string { Decimal(|name|) + name }

  function EncodeInt(n: int): string { if n < 0 then "n" + Decimal(-n) else Decimal(n) }

  function EncodeParam(n: Option<nat>): string
  {
    "T" + ((match n case None => "" case Some(k) => Decimal(k)) + "_")
  }

  function EncodeSeen(id: string): string { "S" + (id + "_") }

  function EncodeDisc(disc: Option<nat>): string
  {
    match disc case None => "" case Some(k) => "_" + Decimal(k)
  }

  function EncodeType(t: Type): string
  {
    match t
    case Qualified(quals, of) => quals.Code() + EncodeType(of)
    case Marked(mark, of) => [mark.Code()] + EncodeType(of)
    case Pack(of) => "Dp" + EncodeType(of)
    case Decltype(kind, e) => ['D', kind] + (EncodeExpr(e) + "E")
    case VendorQualified(name, of) => "U" + (Word(name) + EncodeType(of))
    case Fundamental(b) => [b.Code()]
    case VendorType(name) => "u" + Word(name)
    case FunctionType(externC, types) => "F" + ((if externC then "Y" else "") + (EncodeTypes(types) + "E"))
    case Class(className) => EncodeName(className)
    case Array(size, of) => "A" + (Decimal(size) + ("_" + EncodeType(of)))
    case OpenArray(of) => "A_" + EncodeType(of)
    case DependentArray(e, of) => "A" + (EncodeExpr(e) + ("_" + EncodeType(of)))
    case MemberOf(owner, of) => "M" + (EncodeType(owner) + EncodeType(of))
    case Abbreviated(s) => ['S', s.Code()]
    case Seen(id) => EncodeSeen(id)
    case Param(n) => EncodeParam(n)
    case ParamTemplate(n, args) => EncodeParam(n) + EncodeArgs(args)
  }

  function EncodeTypes(types: Types): string
  {
    match types
    case NoTypes => ""
    case Types(head, tail) => EncodeType(head) + EncodeTypes(tail)
  }

  function EncodeArgs(args: Args): string
  {
    if args.NoArgs? then "" else "I" + (EncodeList(args) + "E")
  }

  function EncodeList(args: Args): string
    decreases args, 0
  {
    match args
    case NoArgs => ""
    case Args(head, tail) => EncodeArg(head) + EncodeList(tail)
  }

  function EncodeArg(arg: Arg): string
  {
    match arg
    case OfType(t) => EncodeType(t)
    case OfLiteral(l) => EncodeLiteral(l)
    case OfPack(open, args) => [open] + (EncodeList(args) + "E")
    case OfExpr(e) => "X" + (EncodeExpr(e) + "E")
  }

  function EncodeLiteral(l: Literal): string
  {
    match l
    case Integer(t, n) => "L" + (EncodeType(t) + (EncodeInt(n) + "E"))
    case Float(t, digits) => "L" + (EncodeType(t) + (digits + "E"))
    case External(symbol) => "L" + ("_Z" + (EncodeEncoding(symbol) + "E"))
    case Unprefixed(symbol) => "L" + ("Z" + (EncodeEncoding(symbol) + "E"))
  }

  function EncodeExpr(e: Expr): string
  {
    match e
    case ParamExpr(n) => EncodeParam(n)
    case LiteralExpr(l) => EncodeLiteral(l)
    case Unary(op, a) => op.Code() + EncodeExpr(a)
    case Converted(t, a) => "cv" + (EncodeType(t) + EncodeExpr(a))
    case Binary(op, a, b) => op.Code() + (EncodeExpr(a) + EncodeExpr(b))
    case Ternary(op, a, b, c) => op.Code() + (EncodeExpr(a) + (EncodeExpr(b) + EncodeExpr(c)))
    case SizeofExpr(t) => "st" + EncodeType(t)
    case Scoped(t, name, args) => "sr" + (EncodeType(t) + (Word(name) + EncodeArgs(args)))
  }

  function EncodeTags(tags: Tags): string
  {
    match tags
    case NoTags => ""
    case Tags(head, tail) => "B" + (Word(head) + EncodeTags(tail))
  }

  function EncodeUnqualified(u: Unqualified): string
  {
    match u
    case Identifier(name, tags) => Word(name) + EncodeTags(tags)
    case OfOperator(op) => op.Code()
    case Cast(t) => "cv" + EncodeType(t)
    case VendorOperator(digit, name) => ['v', digit] + Word(name)
    case Local(name, disc, tags) => "L" + (Word(name) + (EncodeDisc(disc) + EncodeTags(tags)))
  }

  function EncodeName(name: Name): string
  {
    match name
    case Nested(quals, path) => "N" + (quals.Code() + (EncodePath(path) + "E"))
    case Entity(of, inner, disc) => "Z" + (EncodeEncoding(of) + ("E" + (EncodeName(inner) + EncodeDisc(disc))))
    case StringLiteral(of, disc) => "Z" + (EncodeEncoding(of) + ("Es" + EncodeDisc(disc)))
    case Unscoped(std, u, args) => (if std then "St" else "") + (EncodeUnqualified(u) + EncodeArgs(args))
    case StandardTemplate(s, args) => ['S', s.Code()] + EncodeArgs(args)
    case SeenTemplate(id, args) => EncodeSeen(id) + EncodeArgs(args)
  }

  function EncodePath(path: Path): string
  {
    match path
    case EndOfPath => ""
    case Path(item, args, tail) => EncodeItem(item) + (EncodeArgs(args) + EncodePath(tail))
  }

  function EncodeItem(item: Item): string
  {
    match item
    case Named(u) => EncodeUnqualified(u)
    case ParamItem(n) => EncodeParam(n)
    case SeenItem(id) => EncodeSeen(id)
    case StandardItem(s) => ['S', s.Code()]
    case Std => "St"
    case Ctor(kind) => ['C', kind]
    case Dtor(kind) => ['D', kind]
  }

  function EncodeOffset(offset: Offset): string
  {
    match offset
    case Fixed(n) => "h" + (EncodeInt(n) + "_")
    case Virtual(n, k) => "v" + (EncodeInt(n) + ("_" + (EncodeInt(k) + "_")))
  }

  function EncodeEncoding(symbol: Encoding): string
  {
    match symbol
    case Function(name, params) => EncodeName(name) + EncodeTypes(params)
    case VirtualData(kind, t) => ['T', kind] + EncodeType(t)
    case Guard(name) => "GV" + EncodeName(name)
    case Temporary(name) => "GR" + EncodeName(name)
    case Covariant(first, second, of) => "Tc" + (EncodeOffset(first) + (EncodeOffset(second) + EncodeEncoding(of)))
    case ThunkTo(offset, of) => "T" + (EncodeOffset(offset) + EncodeEncoding(of))
    case Construction(t, n, base) => "TC" + (EncodeType(t) + (Decimal(n) + ("_" + EncodeType(base))))
    case Java(kind, t) => ['T', kind] + EncodeType(t)
    case Hidden(of) => "GA" + EncodeEncoding(of)
    case OffsetThunk(kind, offset, of) => ['T', kind] + (EncodeOffset(offset) + EncodeEncoding(of))
  }

  // ----- the text -----------------------------------------------------------------------------

  // The pieces that are printed, one after the other.  Arguments print as <>, parameters as
  // (), what would need a table of earlier components as ?, and most marks not at all.

  const ANONYMOUS: CString := "_GLOBAL__N_"

  predicate Anonymous(name: string) { |name| > |ANONYMOUS| && ANONYMOUS <= name }

  function ShownName(name: string): string
  {
    if Anonymous(name) then "(anonymous namespace)" else name
  }

  function ArgsPieces(args: Args): seq<string> { if args.NoArgs? then [] else ["<>"] }

  function OperatorPieces(op: Operator): seq<string>
  {
    if op.IsWord() then ["operator", " ", op.Symbol()] else ["operator", op.Symbol()]
  }

  function TypePieces(t: Type): seq<string>
  {
    match t
    case Qualified(_, of) => TypePieces(of)
    case Marked(_, of) => TypePieces(of)
    case Pack(of) => TypePieces(of)
    case Decltype(_, e) => ExprPieces(e)
    case VendorQualified(name, of) => [ShownName(name)] + TypePieces(of)
    case Fundamental(b) => [b.Text()]
    case VendorType(name) => [ShownName(name)]
    case FunctionType(_, _) => ["()"]
    case Class(className) => NamePieces(className)
    case Array(_, of) => TypePieces(of)
    case OpenArray(of) => TypePieces(of)
    case DependentArray(e, of) => ExprPieces(e) + TypePieces(of)
    case MemberOf(owner, of) => TypePieces(owner) + TypePieces(of)
    case Abbreviated(s) => ["std", "::", s.Text()]
    case Seen(_) => ["?"]
    case Param(_) => ["?"]
    case ParamTemplate(_, _) => ["?", "<>"]
  }

  function LiteralPieces(l: Literal): seq<string>
  {
    match l
    case Integer(t, _) => TypePieces(t)
    case Float(t, _) => TypePieces(t)
    case External(symbol) => EncodingPieces(symbol)
    case Unprefixed(symbol) => EncodingPieces(symbol)
  }

  function ExprPieces(e: Expr): seq<string>
  {
    match e
    case ParamExpr(_) => ["?"]
    case LiteralExpr(l) => LiteralPieces(l)
    case Unary(op, a) => OperatorPieces(op) + ExprPieces(a)
    case Converted(t, a) => ["operator "] + TypePieces(t) + ExprPieces(a)
    case Binary(op, a, b) => OperatorPieces(op) + ExprPieces(a) + ExprPieces(b)
    case Ternary(op, a, b, c) => OperatorPieces(op) + ExprPieces(a) + ExprPieces(b) + ExprPieces(c)
    case SizeofExpr(t) => TypePieces(t)
    case Scoped(t, name, args) => TypePieces(t) + [ShownName(name)] + ArgsPieces(args)
  }

  function UnqualifiedPieces(u: Unqualified): seq<string>
  {
    match u
    case Identifier(name, _) => [ShownName(name)]
    case OfOperator(op) => OperatorPieces(op)
    case Cast(t) => ["operator "] + TypePieces(t)
    case VendorOperator(_, name) => [ShownName(name)]
    case Local(name, _, _) => [ShownName(name)]
  }

  function NamePieces(name: Name): seq<string>
  {
    match name
    case Nested(_, path) => PathPieces(path, [])
    case Entity(of, inner, _) => EncodingPieces(of) + ["::"] + NamePieces(inner)
    case StringLiteral(of, _) => EncodingPieces(of)
    case Unscoped(std, u, args) => (if std then ["std::"] else []) + UnqualifiedPieces(u) + ArgsPieces(args)
    case StandardTemplate(s, args) => ["std", "::", s.Text()] + ArgsPieces(args)
    case SeenTemplate(_, args) => ["?"] + ArgsPieces(args)
  }

  // What is printed for a path behind these pieces.
  function PathPieces(path: Path, before: seq<string>): seq<string>
    decreases path
  {
    match path
    case EndOfPath => []
    case Path(item, args, tail) =>
      var own := ComponentPieces(item, args, before);
      own + PathPieces(tail, before + own)
  }

  function ComponentPieces(item: Item, args: Args, before: seq<string>): seq<string>
    decreases item
  {
    (if before == [] then [] else ["::"]) + ItemPieces(item, before) + ArgsPieces(args)
  }

  function ItemPieces(item: Item, before: seq<string>): seq<string>
    decreases item, 0
  {
    match item
    case Named(u) => UnqualifiedPieces(u)
    case ParamItem(_) => ["?"]
    case SeenItem(_) => ["?"]
    case StandardItem(s) => ["std", "::", s.Text()]
    case Std => ["std"]
    case Ctor(_) => [LastName(before)]
    case Dtor(_) => ["~", LastName(before)]
  }

  predicate StartsName(s: string) { s != "" && (IsAlpha(s[0]) || s[0] == '_') }

  // The last of the pieces that is a name: a constructor is called like its class.
  function LastName(pieces: seq<string>): string
  {
    if pieces == [] then ""
    else if StartsName(pieces[|pieces| - 1]) then pieces[|pieces| - 1]
    else LastName(pieces[..|pieces| - 1])
  }

  function EncodingPieces(symbol: Encoding): seq<string>
  {
    match symbol
    case Function(name, params) => NamePieces(name) + if params.NoTypes? then [] else ["()"]
    case VirtualData(_, t) => TypePieces(t)
    case Guard(name) => NamePieces(name)
    case Temporary(name) => NamePieces(name)
    case Covariant(_, _, of) => EncodingPieces(of)
    case ThunkTo(_, of) => EncodingPieces(of)
    case Construction(t, _, _) => TypePieces(t)
    case Java(_, t) => TypePieces(t)
    case Hidden(of) => EncodingPieces(of)
    case OffsetThunk(_, _, of) => EncodingPieces(of)
  }

  // The pieces joined; a space keeps two '<' apart.
  function Joined(text: string, pieces: seq<string>): string
    decreases |pieces|
  {
    if pieces == [] then text else Joined(Spaced(text, pieces[0]), pieces[1..])
  }

  function Spaced(text: string, piece: string): string
  {
    if text != "" && text[|text| - 1] == '<' && piece != "" && piece[0] == '<' then text + " " + piece
    else text + piece
  }

  // The symbol as it stands in an object file, perhaps with a suffix.
  function Mangled(symbol: Encoding, suffix: string): string { "_Z" + (EncodeEncoding(symbol) + suffix) }

  // A version behind an @ is printed, the suffix of a clone is not.
  function SuffixPieces(suffix: string): seq<string>
  {
    if suffix != "" && suffix[0] == '@' then [suffix] else []
  }

  // What a demangler is to print.
  function Shown(symbol: Encoding, suffix: string): string
  {
    Joined("", EncodingPieces(symbol) + SuffixPieces(suffix))
  }

  // ----- what can be encoded ------------------------------------------------------------------

  predicate IsIdentifierChar(c: char) { IsAlpha(c) || IsDigit(c) || c in {'_', '.', '$'} }

  ghost predicate IsIdentifier(s: string)
  {
    s != "" && !IsDigit(s[0]) && forall k {:trigger IsIdentifierChar(s[k])} :: 0 <= k < |s| ==> IsIdentifierChar(s[k])
  }

  ghost predicate IsSeqId(id: string)
  {
    forall k {:trigger IsSeqIdChar(id[k])} :: 0 <= k < |id| ==> IsSeqIdChar(id[k])
  }

  ghost predicate IsFloat(digits: string)
  {
    digits != "" && forall k {:trigger IsFloatChar(digits[k])} :: 0 <= k < |digits| ==> IsFloatChar(digits[k])
  }

  ghost predicate ValidType(t: Type)
  {
    match t
    case Qualified(quals, of) => quals.Code() != "" && !of.Qualified? && ValidType(of)
    case Marked(_, of) => ValidType(of)
    case Pack(of) => ValidType(of)
    case Decltype(kind, e) => (kind == 't' || kind == 'T') && ValidExpr(e)
    case VendorQualified(name, of) => IsIdentifier(name) && ValidType(of)
    case Fundamental(_) => true
    case VendorType(name) => IsIdentifier(name)
    case FunctionType(_, types) => types.Types? && ValidTypes(types)
    case Class(className) => NamesType(className) && ValidName(className)
    case Array(_, of) => ValidType(of)
    case OpenArray(of) => ValidType(of)
    case DependentArray(e, of) => ValidExpr(e) && !NeedsE(e) && ValidType(of)
    case MemberOf(owner, of) => ValidType(owner) && ValidType(of)
    case Abbreviated(_) => true
    case Seen(id) => IsSeqId(id)
    case Param(_) => true
    case ParamTemplate(_, args) => args.Args? && ValidArgs(args)
  }

  // Names of types: neither operators nor string literals, and without a number at the end,
  // which could run on.
  predicate NamesType(name: Name)
  {
    match name
    case Entity(_, inner, disc) => disc == None && NamesType(inner)
    case StringLiteral(_, _) => false
    case Unscoped(_, u, args) => (u.Identifier? || u.Local?) && (args.Args? || !EndsInDisc(u))
    case _ => true
  }

  ghost predicate ValidTypes(types: Types)
  {
    match types
    case NoTypes => true
    case Types(head, tail) => ValidType(head) && ValidTypes(tail)
  }

  ghost predicate ValidArgs(args: Args)
  {
    match args
    case NoArgs => true
    case Args(head, tail) =>
      && ValidArg(head) && ValidArgs(tail)
      && (head.OfType? ==> !OpensWithI(tail)) && (head.OfLiteral? && head.l.Unprefixed? ==> tail.NoArgs?)
  }

  // Behind a type, the I of a pack would be read as that of the type's own arguments.
  predicate OpensWithI(args: Args) { args.Args? && args.head.OfPack? && args.head.open == 'I' }

  ghost predicate ValidArg(arg: Arg)
  {
    match arg
    case OfType(t) => ValidType(t)
    case OfLiteral(l) => ValidLiteral(l) && !LooksLocal(l)
    case OfPack(open, args) => (open == 'I' || open == 'J') && ValidArgs(args)
    case OfExpr(e) => ValidExpr(e)
  }

  // As a template argument, an L with a digit or the n of __int128 behind it is read as a
  // local name.
  predicate LooksLocal(l: Literal)
  {
    (l.Integer? || l.Float?) && var code := EncodeType(l.t); code != "" && (IsDigit(code[0]) || code[0] == 'n')
  }

  ghost predicate ValidLiteral(l: Literal)
  {
    match l
    case Integer(t, _) => ValidType(t)
    case Float(t, digits) => ValidType(t) && IsFloat(digits)
    case External(symbol) => ValidEncoding(symbol)
    case Unprefixed(symbol) => ValidEncoding(symbol)
  }

  // Nothing behind such an operand can be taken for a part of it.
  predicate IsPrimary(e: Expr) { e.ParamExpr? || (e.LiteralExpr? && !e.l.Unprefixed?) }

  // An _ behind a type could be read as the start of a discriminator, and behind an external
  // name without its underscore only an E may stand.
  predicate NeedsE(e: Expr)
  {
    match e
    case LiteralExpr(l) => l.Unprefixed?
    case Unary(_, a) => NeedsE(a)
    case Converted(_, a) => NeedsE(a)
    case Binary(_, _, b) => NeedsE(b)
    case Ternary(_, _, _, c) => NeedsE(c)
    case SizeofExpr(_) => true
    case _ => false
  }

  // Could an expression start with c?
  predicate StartsExpression(c: char) { c == 'T' || c == 'L' || IsLower(c) }

  // All operands but the last are parameters or literals: an operation there would take the
  // operands behind it.
  ghost predicate ValidExpr(e: Expr)
  {
    match e
    case ParamExpr(_) => true
    case LiteralExpr(l) => ValidLiteral(l)
    case Unary(_, a) => ValidExpr(a)
    case Converted(t, a) => ValidType(t) && ValidExpr(a)
    case Binary(_, a, b) => IsPrimary(a) && ValidExpr(a) && ValidExpr(b)
    case Ternary(_, a, b, c) => IsPrimary(a) && IsPrimary(b) && ValidExpr(a) && ValidExpr(b) && ValidExpr(c)
    case SizeofExpr(t) => ValidType(t) && (t.Fundamental? || !StartsExpression(At(EncodeType(t), 0)))
    case Scoped(t, name, args) => ValidType(t) && IsIdentifier(name) && ValidArgs(args)
  }

  ghost predicate ValidTags(tags: Tags)
  {
    match tags
    case NoTags => true
    case Tags(head, tail) => IsIdentifier(head) && ValidTags(tail)
  }

  ghost predicate ValidUnqualified(u: Unqualified)
  {
    match u
    case Identifier(name, tags) => IsIdentifier(name) && ValidTags(tags)
    case OfOperator(_) => true
    case Cast(t) => ValidType(t)
    case VendorOperator(digit, name) => IsDigit(digit) && IsIdentifier(name)
    case Local(name, _, tags) => IsIdentifier(name) && ValidTags(tags)
  }

  // May the discriminator of what is around the name stand behind it?
  predicate PlainEnd(name: Name)
  {
    match name
    case Entity(_, _, _) => false
    case StringLiteral(_, _) => false
    case Unscoped(_, u, args) => args.Args? || PlainUnqualified(u)
    case _ => true
  }

  predicate PlainUnqualified(u: Unqualified) { !u.Cast? && !(u.Local? && u.disc.None? && u.tags.NoTags?) }

  predicate EndsInDisc(u: Unqualified) { u.Local? && u.disc.Some? && u.tags.NoTags? }

  ghost predicate ValidName(name: Name)
  {
    match name
    case Nested(_, path) => path.Path? && FirstItem(path.item) && ValidPath(path, [])
    case Entity(of, inner, disc) =>
      ValidEncoding(of) && ValidName(inner) && !inner.StringLiteral? && (disc.Some? ==> PlainEnd(inner))
    case StringLiteral(of, _) => ValidEncoding(of)
    case Unscoped(_, u, args) => ValidUnqualified(u) && ValidArgs(args) && (u.Cast? ==> args.NoArgs?)
    case StandardTemplate(_, args) => args.Args? && ValidArgs(args)
    case SeenTemplate(id, args) => IsSeqId(id) && args.Args? && ValidArgs(args)
  }

  // A path begins neither with a constructor or destructor, nor with an operator whose code
  // would be read as a qualifier.
  predicate FirstItem(item: Item)
  {
    match item
    case Named(u) => !(u.OfOperator? && u.op in {Remainder, RemainderAssign, ShiftRight, ShiftRightAssign})
    case Ctor(_) => false
    case Dtor(_) => false
    case _ => true
  }

  ghost predicate ValidPath(path: Path, before: seq<string>)
    decreases path
  {
    match path
    case EndOfPath => true
    case Path(item, args, tail) =>
      && ValidItem(item, before) && ValidArgs(args) && (item.Named? && item.u.Cast? ==> args.NoArgs?)
      && (item.Named? && EndsInDisc(item.u) && args.NoArgs? ==> !IsDigit(At(EncodePath(tail), 0)))
      && ValidPath(tail, before + ComponentPieces(item, args, before))
  }

  ghost predicate ValidItem(item: Item, before: seq<string>)
  {
    match item
    case Named(u) => ValidUnqualified(u)
    case SeenItem(id) => IsSeqId(id)
    case Ctor(kind) => kind in {'1', '2', '3'} && LastName(before) != ""
    case Dtor(kind) => kind in {'0', '1', '2'} && LastName(before) != ""
    case _ => true
  }

  // A function's name ends with a number only if its parameters do not start with a digit.
  ghost predicate ValidEncoding(symbol: Encoding)
  {
    match symbol
    case Function(name, params) =>
      && ValidName(name) && ValidTypes(params) && (name.StringLiteral? ==> params.NoTypes?)
      && (EndsInNumber(name) && params.Types? ==> EncodeTypes(params) != "" && !IsDigit(EncodeTypes(params)[0]))
    case VirtualData(kind, t) => kind in {'V', 'T', 'I', 'S'} && ValidType(t)
    case Guard(name) => ValidName(name)
    case Temporary(name) => ValidName(name)
    case Covariant(_, _, of) => ValidEncoding(of)
    case ThunkTo(_, of) => ValidEncoding(of)
    case Construction(t, _, base) => ValidType(t) && ValidType(base)
    case Java(kind, t) => (kind == 'F' || kind == 'J') && ValidType(t)
    case Hidden(of) => ValidEncoding(of)
    case OffsetThunk(kind, _, of) => (kind == 'h' || kind == 'v') && ValidEncoding(of)
  }

  predicate EndsInNumber(name: Name)
  {
    match name
    case Entity(_, inner, disc) => disc.Some? || EndsInNumber(inner)
    case StringLiteral(_, disc) => disc.Some?
    case Unscoped(_, u, args) => args.NoArgs? && EndsInDisc(u)
    case _ => false
  }
}
