// The statement-local counters of LOG_FIRST_N, LOG_EVERY_N and LOG_IF_EVERY_N.
module LogCounters {
  import opened Division

  // ----- LOG_FIRST_N run by any number of threads ------------------------------------------

  // Where a thread is in the statement: before it, about to increment, about to re-check
  // (having incremented or not), about to log.
  datatype Pc = Outside | Incrementing | Rechecking(incremented: bool) | Logging

  datatype State = State(occurrences: int, pcs: seq<Pc>, logged: nat)

  function Start(threads: nat): State
  {
    State(0, seq(threads, _ => Outside), 0)
  }

  // One atomic step of thread t; a thread may run the statement again and again.
  function Step(n: int, s: State, t: nat): State
    requires t < |s.pcs|
  {
    match s.pcs[t]
    case Outside =>
      s.(pcs := s.pcs[t := if s.occurrences <= n then Incrementing else Rechecking(false)])
    case Incrementing =>
      s.(occurrences := s.occurrences + 1, pcs := s.pcs[t := Rechecking(true)])
    case Rechecking(_) =>
      s.(pcs := s.pcs[t := if s.occurrences <= n then Logging else Outside])
    case Logging =>
      s.(logged := s.logged + 1, pcs := s.pcs[t := Outside])
  }

  predicate Scheduled(threads: nat, schedule: seq<nat>)
  {
    forall k :: 0 <= k < |schedule| ==> schedule[k] < threads
  }

  // The state after the steps of a schedule, the threads named in the order they move.
  function After(n: int, threads: nat, schedule: seq<nat>): (s: State)
    requires Scheduled(threads, schedule)
    ensures |s.pcs| == threads
  {
    if schedule == [] then Start(threads)
    else
      var last := |schedule| - 1;
      Step(n, After(n, threads, schedule[..last]), schedule[last])
  }

  // How many threads are at pc.
  function Count(pcs: seq<Pc>, pc: Pc): (c: nat)
    ensures c <= |pcs|
  {
    if pcs == [] then 0 else Count(pcs[1..], pc) + if pcs[0] == pc then 1 else 0
  }

  lemma {:induction false} CountMoved(pcs: seq<Pc>, t: nat, to: Pc, pc: Pc)
    requires t < |pcs|
    ensures Count(pcs[t := to], pc) ==
            Count(pcs, pc) - (if pcs[t] == pc then 1 else 0) + (if to == pc then 1 else 0)
  {
    if t > 0 {
      assert pcs[t := to][1..] == pcs[1..][t - 1 := to];
      CountMoved(pcs[1..], t - 1, to, pc);
    } else {
      assert pcs[t := to][1..] == pcs[1..];
    }
  }

  function Most(n: int): nat { if n < 0 then 0 else n }

  lemma {:induction false} CountsApart(pcs: seq<Pc>, p: Pc, q: Pc)
    requires p != q
    ensures Count(pcs, p) + Count(pcs, q) <= |pcs|
  {
    if pcs != [] {
      CountsApart(pcs[1..], p, q);
    }
  }

  // What is logged is paid for by increments of one's own; no thread increments unless it
  // has seen a count of at most n; and as long as the count is at most n no message is lost.
  ghost predicate Inv(n: int, s: State)
  {
    var logs := s.logged + Count(s.pcs, Logging);
    var paid, pending := Count(s.pcs, Rechecking(true)), Count(s.pcs, Incrementing);
    && logs + paid <= s.occurrences && logs <= Most(n)
    && s.occurrences + pending <= (if n < 0 then 0 else n + |s.pcs|)
    && (Count(s.pcs, Rechecking(false)) > 0 ==> s.occurrences > n)
    && (if s.occurrences <= n then logs + paid == s.occurrences else logs >= n - |s.pcs| + 1)
  }

  lemma {:induction false} NobodyInside(threads: nat, pc: Pc)
    requires pc != Outside
    ensures Count(seq(threads, _ => Outside), pc) == 0
  {
    if threads > 0 {
      assert seq(threads, _ => Outside)[1..] == seq(threads - 1, _ => Outside);
      NobodyInside(threads - 1, pc);
    }
  }

  lemma CountsSomething(pcs: seq<Pc>, t: nat)
    requires t < |pcs|
    ensures Count(pcs, pcs[t]) > 0
  {
    if t > 0 {
      CountsSomething(pcs[1..], t - 1);
    }
  }

  lemma StepKeepsInv(n: int, s: State, t: nat)
    requires t < |s.pcs| && Inv(n, s)
    ensures Inv(n, Step(n, s, t))
  {
    var to := Step(n, s, t).pcs[t];
    CountsSomething(s.pcs, t);
    CountsApart(s.pcs, Incrementing, Rechecking(true));
    CountMoved(s.pcs, t, to, Logging);
    CountMoved(s.pcs, t, to, Rechecking(true));
    CountMoved(s.pcs, t, to, Rechecking(false));
    CountMoved(s.pcs, t, to, Incrementing);
  }

  lemma {:induction false} AlwaysInv(n: int, threads: nat, schedule: seq<nat>)
    requires threads > 0 || n < 0
    requires Scheduled(threads, schedule)
    ensures Inv(n, After(n, threads, schedule))
  {
    if schedule == [] {
      NobodyInside(threads, Logging);
      NobodyInside(threads, Rechecking(true));
      NobodyInside(threads, Rechecking(false));
      NobodyInside(threads, Incrementing);
    } else {
      var last := |schedule| - 1;
      AlwaysInv(n, threads, schedule[..last]);
      StepKeepsInv(n, After(n, threads, schedule[..last]), schedule[last]);
    }
  }

  // However the threads are interleaved, at most n messages are logged, and the counter
  // never exceeds n by more than the number of threads.
  lemma FirstNBounded(n: int, threads: nat, schedule: seq<nat>)
    requires threads > 0 && Scheduled(threads, schedule)
    ensures After(n, threads, schedule).logged <= Most(n)
    ensures After(n, threads, schedule).occurrences <= if n < 0 then 0 else n + threads
  {
    AlwaysInv(n, threads, schedule);
  }

  // Once no thread is inside the statement, no message is missing while the count is at
  // most n, and fewer than there are threads afterwards: none if there is one thread.
  lemma FirstNLost(n: int, threads: nat, schedule: seq<nat>)
    requires threads > 0 && Scheduled(threads, schedule)
    requires After(n, threads, schedule).pcs == seq(threads, _ => Outside)
    ensures var s := After(n, threads, schedule);
            if s.occurrences <= n then s.logged == s.occurrences else n - threads < s.logged
  {
    AlwaysInv(n, threads, schedule);
    NobodyInside(threads, Logging);
    NobodyInside(threads, Rechecking(true));
  }

  lemma OneMore(n: int, threads: nat, schedule: seq<nat>, t: nat) returns (more: seq<nat>)
    requires t < threads && Scheduled(threads, schedule)
    ensures more == schedule + [t] && After(n, threads, more) == Step(n, After(n, threads, schedule), t)
  {
    more := schedule + [t];
    assert more[..|schedule|] == schedule;
  }

  // The first j threads at one place, the others up to w at another, the rest outside.
  function Row(threads: nat, w: nat, j: nat, to: Pc, from: Pc): (pcs: seq<Pc>)
    ensures |pcs| == threads
  {
    seq(threads, k requires 0 <= k < threads => if k < j then to else if k < w then from else Outside)
  }

  lemma RowMoves(threads: nat, w: nat, j: nat, to: Pc, from: Pc)
    requires j < w <= threads
    ensures Row(threads, w, j, to, from)[j] == from
    ensures Row(threads, w, j, to, from)[j := to] == Row(threads, w, j + 1, to, from)
  {
  }

  lemma RowTurns(threads: nat, w: nat, to: Pc, from: Pc, next: Pc)
    requires w <= threads
    ensures Row(threads, w, w, to, from) == Row(threads, w, 0, next, to)
  {
  }

  lemma RowOutside(threads: nat, w: nat, j: nat, from: Pc, to: Pc)
    ensures Row(threads, w, 0, to, Outside) == seq(threads, _ => Outside) == Row(threads, w, w, Outside, from)
  {
  }

  // A thread that is alone goes through the statement and logs.
  lemma WholeRun(n: int, s: State) returns (a: State, b: State, c: State)
    requires s.pcs != [] && s.pcs[0] == Outside && s.occurrences < n
    ensures a == Step(n, s, 0) && |a.pcs| == |s.pcs|
    ensures b == Step(n, a, 0) && |b.pcs| == |s.pcs|
    ensures c == Step(n, b, 0) && |c.pcs| == |s.pcs|
    ensures Step(n, c, 0) == State(s.occurrences + 1, s.pcs, s.logged + 1)
  {
    a := Step(n, s, 0);
    b := Step(n, a, 0);
    c := Step(n, b, 0);
  }

  lemma LogOnce(n: int, threads: nat, before: seq<nat>, s: State) returns (schedule: seq<nat>)
    requires threads >= 1 && Scheduled(threads, before) && s == After(n, threads, before)
    requires s.pcs[0] == Outside && s.occurrences < n
    ensures Scheduled(threads, schedule)
    ensures After(n, threads, schedule) == State(s.occurrences + 1, s.pcs, s.logged + 1)
  {
    var a, b, c := WholeRun(n, s);
    schedule := OneMore(n, threads, before, 0);
    schedule := OneMore(n, threads, schedule, 0);
    schedule := OneMore(n, threads, schedule, 0);
    schedule := OneMore(n, threads, schedule, 0);
  }

  // It does so r times.
  lemma {:induction false} LogAlone(n: int, threads: nat, r: nat) returns (schedule: seq<nat>)
    requires threads >= 1 && r <= n
    ensures Scheduled(threads, schedule) && After(n, threads, schedule) == State(r, seq(threads, _ => Outside), r)
  {
    schedule := [];
    if r > 0 {
      schedule := LogAlone(n, threads, r - 1);
      schedule := LogOnce(n, threads, schedule, After(n, threads, schedule));
    }
  }

  // Then w threads check, one after the other.
  lemma {:induction false} AllCheck(n: int, threads: nat, r: nat, w: nat, j: nat) returns (schedule: seq<nat>)
    requires threads >= 1 && r <= n && j <= w <= threads
    ensures Scheduled(threads, schedule)
    ensures After(n, threads, schedule) == State(r, Row(threads, w, j, Incrementing, Outside), r)
  {
    if j == 0 {
      schedule := LogAlone(n, threads, r);
      RowOutside(threads, w, 0, Outside, Incrementing);
    } else {
      schedule := AllCheck(n, threads, r, w, j - 1);
      schedule := OneMore(n, threads, schedule, j - 1);
      RowMoves(threads, w, j - 1, Incrementing, Outside);
    }
  }

  // Then they increment.
  lemma {:induction false} AllIncrement(n: int, threads: nat, r: nat, w: nat, j: nat) returns (schedule: seq<nat>)
    requires threads >= 1 && r <= n && j <= w <= threads
    ensures Scheduled(threads, schedule)
    ensures After(n, threads, schedule) == State(r + j, Row(threads, w, j, Rechecking(true), Incrementing), r)
  {
    if j == 0 {
      schedule := AllCheck(n, threads, r, w, w);
      RowTurns(threads, w, Incrementing, Outside, Rechecking(true));
    } else {
      schedule := AllIncrement(n, threads, r, w, j - 1);
      schedule := OneMore(n, threads, schedule, j - 1);
      RowMoves(threads, w, j - 1, Rechecking(true), Incrementing);
    }
  }

  // Then they find the count above n.
  lemma {:induction false} AllFail(n: int, threads: nat, r: nat, w: nat, j: nat) returns (schedule: seq<nat>)
    requires threads >= 1 && r <= n < r + w && j <= w <= threads
    ensures Scheduled(threads, schedule)
    ensures After(n, threads, schedule) == State(r + w, Row(threads, w, j, Outside, Rechecking(true)), r)
  {
    if j == 0 {
      schedule := AllIncrement(n, threads, r, w, w);
      RowTurns(threads, w, Rechecking(true), Incrementing, Outside);
    } else {
      schedule := AllFail(n, threads, r, w, j - 1);
      schedule := OneMore(n, threads, schedule, j - 1);
      RowMoves(threads, w, j - 1, Outside, Rechecking(true));
    }
  }

  lemma StaysAbove(n: int, s: State, t: nat)
    requires t < |s.pcs| && s.occurrences > n && Count(s.pcs, Logging) == 0
    ensures var s' := Step(n, s, t);
            s'.occurrences > n && Count(s'.pcs, Logging) == 0 && s'.logged == s.logged
  {
    CountsSomething(s.pcs, t);
    CountMoved(s.pcs, t, Step(n, s, t).pcs[t], Logging);
  }

  // Above n, with nobody about to log, nothing is ever logged again.
  lemma {:induction false} NeverAgain(n: int, threads: nat, schedule: seq<nat>, rest: seq<nat>)
    requires Scheduled(threads, schedule) && Scheduled(threads, rest)
    requires After(n, threads, schedule).occurrences > n && Count(After(n, threads, schedule).pcs, Logging) == 0
    ensures Scheduled(threads, schedule + rest)
    ensures var s := After(n, threads, schedule + rest);
            && s.occurrences > n && Count(s.pcs, Logging) == 0
            && s.logged == After(n, threads, schedule).logged
  {
    hide After, Step, Count;
    if rest == [] {
      assert schedule + rest == schedule;
    } else {
      var last := |rest| - 1;
      NeverAgain(n, threads, schedule, rest[..last]);
      var more := OneMore(n, threads, schedule + rest[..last], rest[last]);
      assert more == schedule + rest;
      StaysAbove(n, After(n, threads, schedule + rest[..last]), rest[last]);
    }
  }

  // For every n and number of threads there is a run that leaves the count above n and
  // nobody inside, and has logged no more than FirstNLost promises.
  lemma AsManyLost(n: int, threads: nat) returns (schedule: seq<nat>)
    requires n >= 1 && threads >= 1
    ensures Scheduled(threads, schedule)
    ensures After(n, threads, schedule) == State(n + 1, seq(threads, _ => Outside), Most(n - threads + 1))
  {
    var w := if threads <= n + 1 then threads else n + 1;
    schedule := AllFail(n, threads, n + 1 - w, w, w);
    RowOutside(threads, w, w, Rechecking(true), Outside);
  }

  // All n messages are certain exactly if there is one thread.
  lemma AllCertainIffAlone(n: int, threads: nat)
    requires n >= 1 && threads >= 1
    ensures (forall schedule ::
               Scheduled(threads, schedule) && After(n, threads, schedule).pcs == seq(threads, _ => Outside)
               && After(n, threads, schedule).occurrences > n
               ==> After(n, threads, schedule).logged == n)
            <==> threads == 1
  {
    if threads == 1 {
      forall schedule | Scheduled(threads, schedule) && After(n, threads, schedule).pcs == seq(threads, _ => Outside)
                        && After(n, threads, schedule).occurrences > n
        ensures After(n, threads, schedule).logged == n
      {
        FirstNBounded(n, threads, schedule);
        FirstNLost(n, threads, schedule);
      }
    } else {
      var schedule := AsManyLost(n, threads);
      assert After(n, threads, schedule).logged < n;
    }
  }

  // ----- LOG_EVERY_N and LOG_IF_EVERY_N run by one thread --------------------------------------

  // Is the k-th execution (counting from 1) one that logs?
  predicate Fires(n: nat, k: nat)
    requires n >= 1
  {
    k % n == 1 % n
  }

  // How many of the first k executions log.
  function Fired(n: nat, k: nat): nat
    requires n >= 1
  {
    if k == 0 then 0 else Fired(n, k - 1) + if Fires(n, k) then 1 else 0
  }

  lemma NextQuotient(n: int, k: int)
    requires n >= 1
    ensures (k + 1) % n == if k % n == n - 1 then 0 else k % n + 1
    ensures (k + 1) / n == if k % n == n - 1 then k / n + 1 else k / n
  {
    var q, r := k / n, k % n;
    assert k == n * q + r;
    if r == n - 1 {
      assert n * (q + 1) == n * q + n;
      DividesAs(n, k + 1, q + 1, 0);
    } else {
      DividesAs(n, k + 1, q, r + 1);
    }
  }

  lemma WrapsAround(n: int, k: int)
    requires n >= 1
    ensures (k % n + 1) % n == (k + 1) % n
  {
    var r := k % n;
    NextQuotient(n, k);
    if r == n - 1 {
      DividesAs(n, r + 1, 1, 0);
    } else {
      DividesAs(n, r + 1, 0, r + 1);
    }
  }

  // Execution k logs exactly if the number of those before it is a multiple of n.
  lemma FiresNext(n: nat, k: nat)
    requires n >= 1 && k >= 1
    ensures Fires(n, k) <==> (k - 1) % n == 0
  {
    NextQuotient(n, k - 1);
    if n == 1 {
      DividesAs(n, 1, 1, 0);
    } else {
      DividesAs(n, 1, 0, 1);
    }
  }

  lemma RoundsUp(n: nat, k: nat)
    requires n >= 1
    ensures (k + n) / n == (k + n - 1) / n + if k % n == 0 then 1 else 0
  {
    var q, r := k / n, k % n;
    assert k == n * q + r && n * (q + 1) == n * q + n;
    DividesAs(n, k + n, q + 1, r);
    if r == 0 {
      DividesAs(n, k + n - 1, q, n - 1);
    } else {
      DividesAs(n, k + n - 1, q + 1, r - 1);
    }
  }

  // Of every n executions one logs, the first of them: after k, as many as k / n rounded up.
  lemma {:induction false} OneOfEveryN(n: nat, k: nat)
    requires n >= 1
    ensures Fired(n, k) == (k + n - 1) / n
  {
    if k == 0 {
      DividesAs(n, n - 1, 0, n - 1);
    } else {
      OneOfEveryN(n, k - 1);
      FiresNext(n, k);
      RoundsUp(n, k - 1);
    }
  }

  // The two static counters of one LOG_EVERY_N or LOG_IF_EVERY_N.
  class EveryN {
    const n: nat
    var occurrences: int
    var occurrencesModN: int

    ghost var counted: nat  // executions whose condition was true

    constructor (n: nat)
      requires n >= 1
      ensures this.n == n && occurrences == occurrencesModN == 0 && counted == 0
    {
      this.n, occurrences, occurrencesModN, counted := n, 0, 0, 0;
    }

    // The reduced counter runs from 1 to n.
    ghost predicate FromOne()
      reads this
    {
      n >= 1 && occurrencesModN == if counted == 0 then 0 else (counted - 1) % n + 1
    }

    // The reduced counter runs from 0 to n - 1.
    ghost predicate FromZero()
      reads this
    {
      n >= 1 && occurrencesModN == counted % n
    }

    // LOG_EVERY_N, on every platform.
    method LogEveryN() returns (logs: bool)
      requires FromOne() && counted == occurrences
      modifies this
      ensures FromOne() && counted == occurrences == old(occurrences) + 1
      ensures logs <==> Fires(n, occurrences)
    {
      occurrences := occurrences + 1;
      Increment();
      logs := occurrencesModN == 1;
    }

    // Adds one to the reduced counter and subtracts n when it is above n.
    method Increment()
      requires FromOne()
      modifies `occurrencesModN, `counted
      ensures FromOne() && counted == old(counted) + 1
      ensures occurrencesModN == 1 <==> Fires(n, counted)
    {
      FiresNext(n, counted + 1);
      if counted > 0 {
        NextQuotient(n, counted - 1);
      }
      occurrencesModN := occurrencesModN + 1;
      if occurrencesModN > n {
        occurrencesModN := occurrencesModN - n;
      }
      counted := counted + 1;
    }

    // LOG_IF_EVERY_N with C++11 atomics.
    method LogIfEveryNAtomic(condition: bool) returns (logs: bool)
      requires FromZero()
      modifies this
      ensures FromZero() && occurrences == old(occurrences) + 1
      ensures counted == old(counted) + if condition then 1 else 0
      ensures logs <==> condition && Fires(n, counted)
    {
      occurrences := occurrences + 1;
      logs := false;
      if condition {
        WrapsAround(n, counted);
        occurrencesModN := (occurrencesModN + 1) % n;
        counted := counted + 1;
        logs := occurrencesModN == 1 % n;
      }
    }

    // LOG_IF_EVERY_N on Windows.
    method LogIfEveryNWindows(condition: bool) returns (logs: bool)
      requires FromOne()
      modifies this
      ensures FromOne() && occurrences == old(occurrences) + 1
      ensures counted == old(counted) + if condition then 1 else 0
      ensures logs <==> condition && Fires(n, counted)
    {
      occurrences := occurrences + 1;
      logs := false;
      if condition {
        Increment();
        logs := occurrencesModN == 1;
      }
    }

    // LOG_IF_EVERY_N with the __sync builtins.
    method LogIfEveryNSync(condition: bool) returns (logs: bool)
      requires FromZero()
      modifies this
      ensures FromZero() && occurrences == old(occurrences) + 1
      ensures counted == old(counted) + if condition then 1 else 0
      ensures logs <==> condition && Fires(n, counted)
    {
      occurrences := occurrences + 1;
      logs := false;
      if condition {
        NextQuotient(n, counted);
        occurrencesModN := occurrencesModN + 1;
        if occurrencesModN >= n {
          occurrencesModN := occurrencesModN - n;
        }
        counted := counted + 1;
        logs := occurrencesModN == 1 % n;
      }
    }
  }

  // How many of the first k conditions are true.
  function Trues(conditions: seq<bool>, k: nat): nat
    requires k <= |conditions|
  {
    if k == 0 then 0 else Trues(conditions, k - 1) + if conditions[k - 1] then 1 else 0
  }

  // The three versions of LOG_IF_EVERY_N log at exactly the same executions: those whose
  // condition is the j-th true one for a j that fires.
  method SameOnEveryPlatform(n: nat, conditions: seq<bool>)
    returns (atomic: seq<bool>, windows: seq<bool>, sync: seq<bool>)
    requires n >= 1
    ensures atomic == windows == sync && |sync| == |conditions|
    ensures forall k :: 0 <= k < |conditions| ==>
      sync[k] == (conditions[k] && Fires(n, Trues(conditions, k + 1)))
  {
    var a := new EveryN(n);
    var w := new EveryN(n);
    var s := new EveryN(n);
    atomic, windows, sync := [], [], [];
    DividesAs(n, 0, 0, 0);
    for k := 0 to |conditions|
      invariant fresh(a) && fresh(w) && fresh(s) && a != w && a != s && w != s
      invariant a.n == w.n == s.n == n && a.FromZero() && w.FromOne() && s.FromZero()
      invariant a.counted == w.counted == s.counted == Trues(conditions, k)
      invariant atomic == windows == sync && |sync| == k
      invariant forall i :: 0 <= i < k ==> sync[i] == (conditions[i] && Fires(n, Trues(conditions, i + 1)))
    {
      var onAtomic := a.LogIfEveryNAtomic(conditions[k]);
      var onWindows := w.LogIfEveryNWindows(conditions[k]);
      var onSync := s.LogIfEveryNSync(conditions[k]);
      atomic, windows, sync := atomic + [onAtomic], windows + [onWindows], sync + [onSync];
    }
  }
}
