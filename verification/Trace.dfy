// What a run of the parser does to the output, as data: the grammar produces a
// trace, and Exec carries it out on the output state.
module Trace {
  import opened CStrings
  import opened Output

  datatype Trace =
    | Nil
    | Put(s: string)              // MaybeAppend
    | PutPrevName                 // the name of a ctor or dtor
    | Deeper                      // one more nesting level, if inside a nested name
    | Separate                    // MaybeAppendSeparator
    | Then(first: Trace, rest: Trace)
    | Abandon(t: Trace)           // an alternative that failed: *state = copy
    | Quiet(t: Trace)             // with append off
    | Nested(t: Trace)            // at nesting level 0
    | Retract(t: Trace)           // a separator, a failed component, the separator cancelled

  function Exec(t: Trace, o: Output): Output
  {
    match t
    case Nil => o
    case Put(s) => MaybeAppend(o, s)
    case PutPrevName => MaybeAppendPrevName(o)
    case Deeper => MaybeIncreaseNestLevel(o)
    case Separate => MaybeAppendSeparator(o)
    case Then(first, rest) => Exec(rest, Exec(first, o))
    case Abandon(u) => Exec(u, o).Restore(o)
    case Quiet(u) => Exec(u, o.(append := false)).(append := o.append)
    case Nested(u) => Exec(u, o.(nest := 0)).(nest := o.nest)
    case Retract(u) => MaybeCancelLastSeparator(Exec(u, MaybeAppendSeparator(o)))
  }

  // Nothing but abandoned alternatives: the struct comes out as it went in.
  ghost predicate Settled(t: Trace)
  {
    match t
    case Nil => true
    case Then(first, rest) => Settled(first) && Settled(rest)
    case Abandon(u) => Sane(u)
    case _ => false
  }

  // A separator is cancelled only right after it was appended.
  ghost predicate Sane(t: Trace)
  {
    match t
    case Then(first, rest) => Sane(first) && Sane(rest)
    case Abandon(u) => Sane(u)
    case Quiet(u) => Sane(u)
    case Nested(u) => Sane(u)
    case Retract(u) => Settled(u) && Sane(u)
    case _ => true
  }

  // Changes of the nesting level happen inside Nested only.
  ghost predicate Level(t: Trace)
  {
    match t
    case Deeper => false
    case Then(first, rest) => Level(first) && Level(rest)
    case Quiet(u) => Level(u)
    case Retract(u) => Level(u)
    case _ => true
  }

  // Prints nothing, not even on an abandoned path.
  ghost predicate Silent(t: Trace)
  {
    match t
    case Nil => true
    case Then(first, rest) => Silent(first) && Silent(rest)
    case Abandon(u) => Silent(u)
    case Quiet(u) => Level(u)
    case Nested(u) => Silent(u)
    case _ => false
  }

  // The equations of Exec for composite traces, for proofs that follow a method step by step.
  lemma ExecEquations()
    ensures forall o {:trigger Exec(Nil, o)} :: Exec(Nil, o) == o
    ensures forall o {:trigger Exec(Separate, o)} :: Exec(Separate, o) == MaybeAppendSeparator(o)
    ensures forall a, b, o {:trigger Exec(Then(a, b), o)} :: Exec(Then(a, b), o) == Exec(b, Exec(a, o))
    ensures forall u, o {:trigger Exec(Abandon(u), o)} :: Exec(Abandon(u), o) == Exec(u, o).Restore(o)
    ensures forall u, o {:trigger Exec(Quiet(u), o)} ::
      Exec(Quiet(u), o) == Exec(u, o.(append := false)).(append := o.append)
    ensures forall u, o {:trigger Exec(Nested(u), o)} ::
      Exec(Nested(u), o) == Exec(u, o.(nest := 0)).(nest := o.nest)
    ensures forall u, o {:trigger Exec(Retract(u), o)} ::
      Exec(Retract(u), o) == MaybeCancelLastSeparator(Exec(u, MaybeAppendSeparator(o)))
  {
  }

  lemma PutFrame(o: Output, c: Chars)
    ensures var r := MaybeAppendWithLength(o, c);
            && |r.out| == |o.out| && r.append == o.append && r.nest == o.nest && r.lost == o.lost
            && (o.overflowed ==> r.overflowed)
  {
    hide Append, Chars.Read;
  }

  // The buffer keeps its size, overflow and loss are never forgotten, and the
  // nesting level comes back unless a prefix counted its components at this level.
  lemma {:induction false} ExecFrame(t: Trace, o: Output)
    ensures |Exec(t, o).out| == |o.out|
    ensures Exec(t, o).append == o.append
    ensures o.overflowed ==> Exec(t, o).overflowed
    ensures o.lost ==> Exec(t, o).lost
    ensures o.nest <= Exec(t, o).nest
    ensures Level(t) ==> Exec(t, o).nest == o.nest
  {
    hide MaybeAppendWithLength;
    match t
    case Put(s) => PutFrame(o, Text(s));
    case PutPrevName =>
      if o.prev.Name? {
        PutFrame(o, InOutput(o.prev.at, o.prev.length));
      }
    case Separate => PutFrame(o, Text("::"));
    case Then(first, rest) =>
      ExecFrame(first, o);
      ExecFrame(rest, Exec(first, o));
    case Abandon(u) => ExecFrame(u, o);
    case Quiet(u) => ExecFrame(u, o.(append := false));
    case Nested(u) => ExecFrame(u, o.(nest := 0));
    case Retract(u) =>
      PutFrame(o, Text("::"));
      ExecFrame(u, MaybeAppendSeparator(o));
    case _ =>
  }

  lemma ExecKeepsAppend()
    ensures forall t, o {:trigger Exec(t, o)} :: Exec(t, o).append == o.append
  {
    forall t, o {
      ExecFrame(t, o);
    }
  }

  // Abandoned alternatives leave the struct as it was.
  lemma {:induction false} SettledRestores(t: Trace, o: Output)
    requires Settled(t)
    ensures Exec(t, o) == Exec(t, o).Restore(o)
  {
    match t
    case Then(first, rest) =>
      SettledRestores(first, o);
      SettledRestores(rest, Exec(first, o));
    case _ =>
  }
}
