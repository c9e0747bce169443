// The parser's state and the primitives that write to the output buffer.
module Output {
  import opened CStrings

  // A character pointer and a length handed to Append: a string of its own, or
  // a place in the output buffer (the previous name, copied for ctors and dtors).
  datatype Chars = Text(s: string) | InOutput(at: nat, length: nat) {
    function Length(): nat
    {
      match this
      case Text(s) => |s|
      case InOutput(_, length) => length
    }

    // The i-th character; places outside the buffer read as '\0'.
    function Read(i: nat, out: string): char
    {
      match this
      case Text(s) => At(s, i)
      case InOutput(at, _) => At(out, at + i)
    }
  }

  // prev_name and prev_name_length: NULL, or an offset into the output.
  datatype PrevName = NoName | Name(at: nat, length: nat)

  // The part of State that concerns output, with pointers as offsets, and the
  // bytes of the buffer, whose length is out_size.  lost is a history variable:
  // was a character dropped on a path that has since been abandoned?
  datatype Output = Output(
    outCur: nat, prev: PrevName, nest: int, append: bool, overflowed: bool,
    out: string, lost: bool)
  {
    // Where the cursors may stand.
    ghost predicate WF()
    {
      && (outCur == 0 || outCur < |out|)
      && -1 <= nest
      && (prev.Name? && !overflowed ==> 0 < prev.length && prev.at + prev.length <= outCur)
    }

    // *state = copy: the struct comes back, the bytes of the buffer do not.
    function Restore(copy: Output): Output
    {
      copy.(out := out, lost := lost || (overflowed && !copy.overflowed))
    }

    // Has any path, abandoned or not, met a full buffer?
    predicate Dropped() { overflowed || lost }
  }

  // InitState, for a buffer that holds the given bytes.
  function Initial(out: string): Output
  {
    Output(0, NoName, -1, true, false, out, false)
  }

  // ----- Append ----------------------------------------------------------------

  // Copies characters i, i+1, ... of c while one more byte stays free for the NUL.
  function AppendLoop(o: Output, c: Chars, i: nat): (r: Output)
    requires i <= c.Length()
    ensures r == o.(outCur := r.outCur, overflowed := r.overflowed, out := r.out)
    ensures |r.out| == |o.out| && o.outCur <= r.outCur
    ensures r.outCur < |r.out| || r.outCur == o.outCur
    ensures forall k :: 0 <= k < o.outCur && k < |r.out| ==> r.out[k] == o.out[k]
    ensures if o.outCur + (c.Length() - i) < |o.out| || i == c.Length()
            then r.outCur == o.outCur + (c.Length() - i) && r.overflowed == o.overflowed
            else r.overflowed
    decreases c.Length() - i
  {
    if i == c.Length() then o
    else if o.outCur + 1 < |o.out| then
      AppendLoop(o.(out := o.out[o.outCur := c.Read(i, o.out)], outCur := o.outCur + 1), c, i + 1)
    else o.(overflowed := true)
  }

  // The NUL behind the text; Append never gets here with a full buffer.
  function Terminate(o: Output): (r: Output)
    ensures |r.out| == |o.out|
  {
    if o.overflowed || o.outCur >= |o.out| then o else o.(out := o.out[o.outCur := '\0'])
  }

  function Append(o: Output, c: Chars): (r: Output)
    requires c.Length() > 0
    ensures r == o.(outCur := r.outCur, overflowed := r.overflowed, out := r.out)
    ensures |r.out| == |o.out| && o.outCur <= r.outCur
    ensures r.outCur < |r.out| || r.outCur == o.outCur
    ensures forall k :: 0 <= k < o.outCur && k < |r.out| ==> r.out[k] == o.out[k]
    ensures if o.outCur + c.Length() < |o.out|
            then r.outCur == o.outCur + c.Length() && r.overflowed == o.overflowed
            else r.overflowed
  {
    Terminate(AppendLoop(o, c, 0))
  }

  // ----- the conditional forms ---------------------------------------------------

  // One space keeps '<' apart from a preceding '<'.
  function SpaceBefore(o: Output, c: Chars): (r: Output)
  {
    if c.Read(0, o.out) == '<' && 0 < o.outCur && At(o.out, o.outCur - 1) == '<'
    then Append(o, Text(" ")) else o
  }

  function Remember(o: Output, c: Chars): (r: Output)
  {
    if IsAlpha(c.Read(0, o.out)) || c.Read(0, o.out) == '_'
    then o.(prev := Name(o.outCur, c.Length())) else o
  }

  function MaybeAppendWithLength(o: Output, c: Chars): (r: Output)
  {
    if o.append && c.Length() > 0 then
      Append(Remember(SpaceBefore(o, c), c), c)
    else o
  }

  function MaybeAppend(o: Output, str: string): (r: Output)
  {
    if o.append then MaybeAppendWithLength(o, Text(str)) else o
  }

  // The previous name once more, for ctors and dtors.
  function MaybeAppendPrevName(o: Output): (r: Output)
  {
    match o.prev
    case NoName => o
    case Name(at, length) => MaybeAppendWithLength(o, InOutput(at, length))
  }

  // ----- nested names --------------------------------------------------------------

  function MaybeAppendSeparator(o: Output): (r: Output)
  {
    if o.nest >= 1 then MaybeAppend(o, "::") else o
  }

  function MaybeCancelLastSeparator(o: Output): (r: Output)
    ensures |r.out| == |o.out|
  {
    if o.nest >= 1 && o.append && 2 <= o.outCur
    then o.(outCur := o.outCur - 2,
            out := if o.outCur - 2 < |o.out| then o.out[o.outCur - 2 := '\0'] else o.out)
    else o
  }

  function MaybeIncreaseNestLevel(o: Output): Output
  {
    if o.nest > -1 then o.(nest := o.nest + 1) else o
  }
}
