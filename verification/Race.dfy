/** Racing an awaitable with the shutdown signal (Worker._or_shutdown).

    The caller runs two children: `task`, which awaits the given awaitable, and `waiter`,
    which waits for the signal.  The caller is parked in asyncio.wait, or in a gather that
    reaps one child or both.  A child may ignore a cancellation request for as long as it
    likes and end any way it likes; the caller may be cancelled at every await, any number
    of times.  asyncio's gather passes a cancellation on to its children and raises it only
    once they are done. */
module Race {

  datatype ChildResult<T> = Value(value: T) | Error(isSeppError: bool) | ChildCancelled

  datatype Child<T> =
    | Running(cancelRequested: bool)
    | Done(result: ChildResult<T>)

  /** How a call of _or_shutdown leaves. */
  datatype Exit<T> =
    | Result(value: T)
    | Raised(isSeppError: bool)
    | ShutdownWon
    | CancelPropagated

  datatype Pc<T> =
    | Waiting
    | ReapBoth
    | ReapTask
    | ReapWaiter
    | Exited(exit: Exit<T>)

  datatype State<T> = State(
    pc: Pc<T>,
    task: Child<T>,
    waiter: Child<()>,
    signal: bool,
    mustCancel: bool,       // a CancelledError is raised when the caller next resumes
    callerCancelled: bool,  // history: the caller was cancelled at some await
    inDone: bool,           // history: `task in done` when asyncio.wait returned
    taskCancelled: bool)    // history: the caller cancelled `task`

  datatype Event<T> =
    | SignalFires
    | TaskEnds(taskResult: ChildResult<T>)
    | WaiterEnds(waiterResult: ChildResult<()>)
    | CallerCancelled
    | Wakes
    | Reaped

  function Init<T>(signal: bool): State<T> {
    State(Waiting, Running(false), Running(false), signal, false, false, false, false)
  }

  function Cancel<T>(c: Child<T>): Child<T> {
    if c.Running? then Running(true) else c
  }

  /** task.result() */
  function ExitOf<T>(r: ChildResult<T>): Exit<T> {
    match r
    case Value(v) => Result(v)
    case Error(isSeppError) => Raised(isSeppError)
    case ChildCancelled => CancelPropagated
  }

  predicate Enabled<T>(s: State<T>, e: Event<T>) {
    match e
    case SignalFires => true
    case TaskEnds(_) => s.task.Running?
    case WaiterEnds(r) =>
      && s.waiter.Running?
      && (r.Value? ==> s.signal)
      && (r.ChildCancelled? ==> s.waiter.cancelRequested)
      && !r.Error?
    case CallerCancelled => !s.pc.Exited?
    case Wakes => s.pc.Waiting? && (s.mustCancel || s.task.Done? || s.waiter.Done?)
    case Reaped =>
      match s.pc
      case ReapBoth => s.task.Done? && s.waiter.Done?
      case ReapTask => s.task.Done?
      case ReapWaiter => s.waiter.Done? && s.task.Done?  // Inv: the task is done here
      case _ => false
  }

  function Apply<T>(s: State<T>, e: Event<T>): State<T>
    requires Enabled(s, e)
  {
    match e
    case SignalFires => s.(signal := true)
    case TaskEnds(r) => s.(task := Done(r))
    case WaiterEnds(r) => s.(waiter := Done(r))
    case CallerCancelled =>
      // A cancelled gather cancels the children it gathers.
      s.(mustCancel := true, callerCancelled := true,
         task := if s.pc.ReapBoth? || s.pc.ReapTask? then Cancel(s.task) else s.task,
         waiter := if s.pc.ReapBoth? || s.pc.ReapWaiter? then Cancel(s.waiter) else s.waiter)
    case Wakes =>
      if s.mustCancel then
        s.(pc := ReapBoth, mustCancel := false, task := Cancel(s.task), waiter := Cancel(s.waiter),
           taskCancelled := true)
      else if s.waiter.Done? && !s.task.Done? then
        s.(pc := ReapTask, task := Cancel(s.task), taskCancelled := true)
      else if !s.waiter.Done? then
        s.(pc := ReapWaiter, waiter := Cancel(s.waiter), inDone := true)
      else
        s.(pc := Exited(ExitOf(s.task.result)), inDone := true)
    case Reaped =>
      if s.mustCancel || s.pc.ReapBoth? then s.(pc := Exited(CancelPropagated))
      else if s.pc.ReapTask? then s.(pc := Exited(ShutdownWon))
      else s.(pc := Exited(ExitOf(s.task.result)))
  }

  ghost predicate Valid<T>(s: State<T>, es: seq<Event<T>>)
    decreases |es|
  {
    es == [] || (Enabled(s, es[0]) && Valid(Apply(s, es[0]), es[1..]))
  }

  ghost function Exec<T>(s: State<T>, es: seq<Event<T>>): State<T>
    requires Valid(s, es)
    decreases |es|
  {
    if es == [] then s else Exec(Apply(s, es[0]), es[1..])
  }

  ghost predicate Inv<T>(s: State<T>) {
    && (s.mustCancel ==> s.callerCancelled)
    && (s.waiter.Done? && s.waiter.result.Value? ==> s.signal)
    && (s.waiter.Done? ==> !s.waiter.result.Error?)
    && match s.pc
       case Waiting =>
         && !s.inDone && !s.taskCancelled
         && s.callerCancelled == s.mustCancel
         && (s.waiter.Running? ==> !s.waiter.cancelRequested)
         && (s.waiter.Done? ==> s.waiter.result.Value?)
       case ReapBoth =>
         && s.callerCancelled && s.taskCancelled && !s.inDone
         && (s.task.Running? ==> s.task.cancelRequested)
         && (s.waiter.Running? ==> s.waiter.cancelRequested)
       case ReapTask =>
         && s.callerCancelled == s.mustCancel
         && s.taskCancelled && !s.inDone && s.signal && s.waiter.Done?
         && (s.task.Running? ==> s.task.cancelRequested)
       case ReapWaiter =>
         && s.callerCancelled == s.mustCancel
         && s.inDone && s.task.Done? && !s.taskCancelled
         && (s.waiter.Running? ==> s.waiter.cancelRequested)
       case Exited(exit) =>
         && s.task.Done? && s.waiter.Done?
         && s.inDone == !s.taskCancelled
         && (exit.ShutdownWon? ==> s.signal && !s.inDone)
         && (exit != CancelPropagated && s.inDone ==> exit == ExitOf(s.task.result))
         && (exit.Result? || exit.Raised? ==> s.inDone)
         && exit == (if s.callerCancelled then CancelPropagated
                     else if s.inDone then ExitOf(s.task.result)
                     else ShutdownWon)
  }

  lemma StepKeepsInv<T>(s: State<T>, e: Event<T>)
    requires Inv(s) && Enabled(s, e)
    ensures Inv(Apply(s, e))
  {
  }

  lemma {:induction false} RunKeepsInv<T>(s: State<T>, es: seq<Event<T>>)
    requires Inv(s) && Valid(s, es)
    ensures Inv(Exec(s, es))
    decreases |es|
  {
    if es != [] {
      StepKeepsInv(s, es[0]);
      RunKeepsInv(Apply(s, es[0]), es[1..]);
    }
  }

  /** Nothing leaks and the awaited result wins ties.  However the call leaves, both
      children are finished.  A value or an error is passed on only if the task was in
      the done set, and then it is the task's own; otherwise the task was cancelled and
      reaped.  Unless the caller itself is cancelled, the exit is the task's result
      exactly when the task was in the done set, and ShutdownWon exactly when not. */
  lemma RaceLeaksNothing<T>(signal: bool, es: seq<Event<T>>)
    requires Valid(Init<T>(signal), es) && Exec(Init<T>(signal), es).pc.Exited?
    ensures var s := Exec(Init<T>(signal), es);
            && s.task.Done? && s.waiter.Done?
            && (s.pc.exit.Result? || s.pc.exit.Raised? ==> s.inDone && s.pc.exit == ExitOf(s.task.result))
            && (s.inDone <==> !s.taskCancelled)
            && Admissible(s.pc.exit, s.signal)
            && (!s.callerCancelled ==>
                  && (s.inDone <==> s.pc.exit == ExitOf(s.task.result) && !s.pc.exit.ShutdownWon?)
                  && (!s.inDone <==> s.pc.exit.ShutdownWon?))
            && (s.pc.exit.CancelPropagated? <==>
                  s.callerCancelled || (s.inDone && s.task.result.ChildCancelled?))
  {
    RunKeepsInv(Init<T>(signal), es);
  }

  /** How the call leaves once it has woken: `task` as asyncio.wait found it. */
  function Decision<T>(task: Child<T>, cancelled: bool): Exit<T> {
    if cancelled then CancelPropagated
    else match task
      case Running(_) => ShutdownWon
      case Done(Value(v)) => Result(v)
      case Done(Error(isSeppError)) => Raised(isSeppError)
      case Done(ChildCancelled) => CancelPropagated
  }

  /** The caller was cancelled before this point of a run or is about to find out. */
  ghost predicate Awake<T>(s: State<T>, task: Child<T>, cancelled: bool) {
    && (task.Done? ==> s.task == task)
    && match s.pc
       case Waiting => false
       case ReapBoth => cancelled
       case ReapTask => task.Running? && s.mustCancel == cancelled
       case ReapWaiter => task.Done? && s.mustCancel == cancelled
       case Exited(exit) => exit == Decision(task, cancelled)
  }

  predicate Cancelled<T>(es: seq<Event<T>>) {
    es != [] && (es[0].CallerCancelled? || Cancelled(es[1..]))
  }

  lemma {:induction false} WaitingRemembers<T>(s: State<T>, es: seq<Event<T>>)
    requires Valid(s, es) && Exec(s, es).pc.Waiting?
    ensures s.pc.Waiting? && Exec(s, es).mustCancel == (s.mustCancel || Cancelled(es))
    decreases |es|
  {
    if es != [] {
      WaitingRemembers(Apply(s, es[0]), es[1..]);
    }
  }

  lemma {:induction false} AwakeIsDecided<T>(s: State<T>, es: seq<Event<T>>, task: Child<T>, cancelled: bool)
    requires Valid(s, es) && Awake(s, task, cancelled)
    ensures Awake(Exec(s, es), task, cancelled || Cancelled(es))
    decreases |es|
  {
    if es != [] {
      var e := es[0];
      assert e.CallerCancelled? ==> !s.pc.Exited?;
      assert Awake(Apply(s, e), task, cancelled || e.CallerCancelled?);
      hide Enabled, Apply, Awake;
      AwakeIsDecided(Apply(s, e), es[1..], task, cancelled || e.CallerCancelled?);
    }
  }

  /** The whole outcome of a race, from what happened in it.  If the caller was cancelled at
      any await, while reaping too, the cancellation propagates.  Otherwise the awaited
      result, error or cancellation is passed on exactly if the task was done when
      asyncio.wait returned, whether or not the signal was there as well; and if it was not,
      shutdown won. */
  lemma ExitIsDecidedAtWake<T>(signal: bool, before: seq<Event<T>>, after: seq<Event<T>>)
    requires Valid(Init<T>(signal), before)
    requires var s := Exec(Init<T>(signal), before);
             Enabled(s, Wakes) && Valid(Apply(s, Wakes), after) && Exec(Apply(s, Wakes), after).pc.Exited?
    ensures var s := Exec(Init<T>(signal), before);
            Exec(Apply(s, Wakes), after).pc.exit == Decision(s.task, Cancelled(before) || Cancelled(after))
  {
    var s := Exec(Init<T>(signal), before);
    WaitingRemembers(Init<T>(signal), before);
    RunKeepsInv(Init<T>(signal), before);
    AwakeIsDecided(Apply(s, Wakes), after, s.task, Cancelled(before));
  }

  lemma InitIsSound<T>(signal: bool)
    ensures Inv(Init<T>(signal))
  {
  }

  lemma ExitIsSound<T>(s: State<T>)
    requires Inv(s) && s.pc.Exited?
    ensures s.task.Done? && s.waiter.Done?
    ensures Admissible(s.pc.exit, s.signal)
    ensures s.pc.exit.Result? || s.pc.exit.Raised? ==> s.inDone && s.pc.exit == ExitOf(s.task.result)
    ensures s.pc.exit == if s.callerCancelled then CancelPropagated
                         else if s.inDone then ExitOf(s.task.result)
                         else ShutdownWon
  {
  }

  /** What a caller may rely on about an exit, given the signal when it resumes. */
  predicate Admissible<T>(exit: Exit<T>, signal: bool) {
    exit.ShutdownWon? ==> signal
  }

  /** While the caller reaps, every child it still waits for has been told to stop. */
  lemma ReapedChildrenAreCancelled<T>(signal: bool, es: seq<Event<T>>)
    requires Valid(Init<T>(signal), es)
    ensures var s := Exec(Init<T>(signal), es);
            && (s.pc.ReapBoth? || s.pc.ReapTask? ==> s.task.Running? ==> s.task.cancelRequested)
            && (s.pc.ReapBoth? || s.pc.ReapWaiter? ==> s.waiter.Running? ==> s.waiter.cancelRequested)
  {
    RunKeepsInv(Init<T>(signal), es);
  }

  // ------------------------------------------------------------------------- progress

  /** Child ends, wake-ups and reaps left before the call leaves. */
  function Rank<T>(s: State<T>): nat {
    (match s.pc case Waiting => 2 case Exited(_) => 0 case _ => 1)
    + (if s.task.Running? then 1 else 0) + (if s.waiter.Running? then 1 else 0)
  }

  predicate Moves<T>(e: Event<T>) {
    !e.SignalFires? && !e.CallerCancelled?
  }

  /** A move that brings the call nearer its end: the caller's, or a child ending.  The
      awaited child is asked for no more than to honour a cancellation. */
  function NextMove<T>(s: State<T>): Event<T> {
    match s.pc
    case Waiting =>
      if s.mustCancel || s.task.Done? || s.waiter.Done? then Wakes else WaiterEnds(Value(()))
    case _ =>
      if s.waiter.Running? then WaiterEnds(ChildCancelled)
      else if s.task.Running? then TaskEnds(ChildCancelled)
      else Reaped
  }

  lemma MovesLowerRank<T>(s: State<T>, e: Event<T>)
    requires Enabled(s, e)
    ensures Rank(Apply(s, e)) <= Rank(s)
    ensures Moves(e) ==> Rank(Apply(s, e)) < Rank(s)
  {
  }

  /** Once the signal has fired, or the caller was cancelled, the call can always go on. */
  lemma NeverStuck<T>(s: State<T>)
    requires Inv(s) && !s.pc.Exited? && (s.signal || s.mustCancel || !s.pc.Waiting?)
    ensures Enabled(s, NextMove(s)) && Moves(NextMove(s))
    ensures NextMove(s).TaskEnds? ==> s.task == Running(true) && NextMove(s) == TaskEnds(ChildCancelled)
  {
  }

  function CountMoves<T>(es: seq<Event<T>>): nat {
    if es == [] then 0 else (if Moves(es[0]) then 1 else 0) + CountMoves(es[1..])
  }

  lemma {:induction false} MovesAreBounded<T>(s: State<T>, es: seq<Event<T>>)
    requires Valid(s, es)
    ensures CountMoves(es) + Rank(Exec(s, es)) <= Rank(s)
    decreases |es|
  {
    if es != [] {
      MovesLowerRank(s, es[0]);
      MovesAreBounded(Apply(s, es[0]), es[1..]);
    }
  }

  /** A race makes at most four moves, and once the signal has fired it has left when no move
      is left to it, even if the awaited child does nothing but end when it is cancelled. */
  lemma RaceIsShort<T>(signal: bool, es: seq<Event<T>>)
    requires Valid(Init<T>(signal), es)
    ensures CountMoves(es) <= 4
    ensures var s := Exec(Init<T>(signal), es);
            s.signal && !Enabled(s, NextMove(s)) ==> s.pc.Exited?
  {
    MovesAreBounded(Init<T>(signal), es);
    RunKeepsInv(Init<T>(signal), es);
    var s := Exec(Init<T>(signal), es);
    if s.signal && !s.pc.Exited? {
      NeverStuck(s);
    }
  }

  // -------------------------------------------------------------------- the coroutine

  lemma {:induction false} NextEvent<T>(s: State<T>, es: seq<Event<T>>, i: nat)
    requires Inv(s) && Valid(s, es) && i < |es|
    ensures Valid(s, es[..i]) && Valid(s, es[..i + 1])
    ensures var s' := Exec(s, es[..i]);
            Inv(s') && Enabled(s', es[i]) && Exec(s, es[..i + 1]) == Apply(s', es[i])
    ensures Inv(Exec(s, es[..i + 1]))
    decreases |es|
  {
    StepKeepsInv(s, es[0]);
    hide Inv, Enabled, Apply;
    if i == 0 {
      assert es[..1] == [es[0]];
      assert es[..1][1..] == [];
    } else {
      NextEvent(Apply(s, es[0]), es[1..], i - 1);
      assert es[..i][1..] == es[1..][..i - 1];
      assert es[..i + 1][1..] == es[1..][..i];
    }
  }

  /** One call of _or_shutdown, as the source writes it, following a script of events. */
  class OrShutdown<T> {
    var pc: Pc<T>
    var task: Child<T>
    var waiter: Child<()>
    var signal: bool
    var mustCancel: bool
    ghost var callerCancelled: bool
    ghost var inDone: bool
    ghost var taskCancelled: bool

    ghost function Abs(): State<T>
      reads this
    {
      State(pc, task, waiter, signal, mustCancel, callerCancelled, inDone, taskCancelled)
    }

    constructor (signal: bool)
      ensures Abs() == Init(signal)
    {
      pc, task, waiter := Waiting, Running(false), Running(false);
      this.signal, mustCancel := signal, false;
      callerCancelled, inDone, taskCancelled := false, false, false;
    }

    predicate IsBackground(e: Event<T>) {
      !e.Wakes? && !e.Reaped?
    }

    ghost predicate At(s0: State<T>, es: seq<Event<T>>, i: nat)
      reads this
    {
      && Inv(s0) && Valid(s0, es) && Exec(s0, es).pc.Exited?
      && i <= |es| && Valid(s0, es[..i]) && Abs() == Exec(s0, es[..i])
      && Inv(Abs())
    }

    method Happen(e: Event<T>)
      requires Enabled(Abs(), e) && IsBackground(e)
      modifies this
      ensures Abs() == Apply(old(Abs()), e)
      ensures pc == old(pc)
    {
      match e
      case SignalFires => signal := true;
      case TaskEnds(r) => task := Done(r);
      case WaiterEnds(r) => waiter := Done(r);
      case CallerCancelled =>
        mustCancel, callerCancelled := true, true;
        if pc.ReapBoth? || pc.ReapTask? {
          task := Cancel(task);
        }
        if pc.ReapBoth? || pc.ReapWaiter? {
          waiter := Cancel(waiter);
        }
    }

    method Park(ghost s0: State<T>, es: seq<Event<T>>, i: nat) returns (j: nat)
      requires At(s0, es, i) && !pc.Exited?
      modifies this
      ensures i <= j < |es| && At(s0, es, j) && pc == old(pc)
      ensures !IsBackground(es[j]) && Enabled(Abs(), es[j])
      ensures Valid(s0, es[..j + 1]) && Exec(s0, es[..j + 1]) == Apply(Abs(), es[j])
      ensures Inv(Apply(Abs(), es[j]))
    {
      hide Inv, Enabled, Apply, Valid, Exec;
      j := i;
      while j < |es| && IsBackground(es[j])
        invariant i <= j <= |es| && At(s0, es, j) && pc == old(pc)
      {
        NextEvent(s0, es, j);
        Happen(es[j]);
        j := j + 1;
      }
      assert es[..|es|] == es;
      NextEvent(s0, es, j);
    }

    /** The gather that reaps, and how the call leaves once it is done. */
    method ReapAndLeave(ghost s0: State<T>, es: seq<Event<T>>, i: nat) returns (j: nat, exit: Exit<T>)
      requires At(s0, es, i) && (pc.ReapBoth? || pc.ReapTask? || pc.ReapWaiter?)
      modifies this
      ensures At(s0, es, j) && pc == Exited(exit)
    {
      hide Inv, Valid, Exec;
      j := Park(s0, es, i);
      if mustCancel || pc.ReapBoth? {
        exit := CancelPropagated;
      } else if pc.ReapTask? {
        exit := ShutdownWon;
      } else {
        exit := ExitOf(task.result);
      }
      pc := Exited(exit);
      j := j + 1;
    }

    /** _or_shutdown.  It does what the first n events of the script say, and leaves both
        children finished and an exit its caller may rely on. */
    method Run(es: seq<Event<T>>) returns (n: nat, exit: Exit<T>)
      requires (Abs() == Init(true) || Abs() == Init(false)) && Valid(Abs(), es) && Exec(Abs(), es).pc.Exited?
      modifies this
      ensures n <= |es| && Valid(old(Abs()), es[..n]) && Abs() == Exec(old(Abs()), es[..n])
      ensures pc == Exited(exit) && task.Done? && waiter.Done?
      ensures Admissible(exit, signal)
      ensures exit.Result? || exit.Raised? ==> inDone && exit == ExitOf(task.result)
      ensures exit == if callerCancelled then CancelPropagated
                      else if inDone then ExitOf(task.result)
                      else ShutdownWon
    {
      ghost var s0 := Abs();
      assert es[..0] == [];
      InitIsSound<T>(s0.signal);
      assert At(s0, es, 0);
      hide Inv, Valid, Exec;
      n := Park(s0, es, 0);
      if mustCancel {
        // except asyncio.CancelledError
        mustCancel := false;
        task, waiter, taskCancelled := Cancel(task), Cancel(waiter), true;
        pc := ReapBoth;
        n, exit := ReapAndLeave(s0, es, n + 1);
      } else if waiter.Done? && !task.Done? {
        task, taskCancelled := Cancel(task), true;
        pc := ReapTask;
        n, exit := ReapAndLeave(s0, es, n + 1);
      } else if !waiter.Done? {
        waiter, inDone := Cancel(waiter), true;
        pc := ReapWaiter;
        n, exit := ReapAndLeave(s0, es, n + 1);
      } else {
        exit, inDone := ExitOf(task.result), true;
        pc := Exited(exit);
        n := n + 1;
      }
      ExitIsSound(Abs());
    }
  }
}
