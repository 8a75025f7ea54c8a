// An asynchronous task: what the calling thread can do with it, also from inside
// the callbacks that the task itself runs, and what its background thread does.
// One step is one stretch of code between two points where the other thread or a
// callback's own code can intervene.
module AsyncTask {
  import opened Options

  datatype Status = Pending | Running | Finished {
    function Rank(): nat { if Pending? then 0 else if Running? then 1 else 2 }
  }

  datatype Exception = AlreadyRunning | AlreadyFinished | IsPending | IsCancelled | WaitTimeout | NoState | FromTask

  /** Which function called `finish`. */
  datatype Caller = FromLoop | FromGet | FromTimedGet

  /** A callback that is running on the calling thread; the last frame is the innermost. */
  datatype Frame = PreExecute | ProgressUpdate | Finishing(caller: Caller)

  datatype Future = NoFuture | Valid | Consumed

  /** The background thread: `Threw` has noted its exception and is about to return an empty result. */
  datatype Worker<+R> = NotStarted | Working | Threw | Done(result: R)

  datatype State<+P, +R> = State(
    empty: R,                  // the result of a body that threw
    status: Status,
    result: R,
    future: Future,
    progress: P,
    cancelled: bool,
    rethrow: bool,             // also: an exception pointer is stored
    worker: Worker<R>,
    stack: seq<Frame>,
    log: Log
  )

  /** How often the callbacks were started and the future was emptied. */
  datatype Log = Log(preExecutes: nat, onCancelled: nat, onPostExecute: nat, retrieved: nat)

  function Init<P, R>(progress: P, empty: R): State<P, R>
  {
    State(empty, Pending, empty, NoFuture, progress, false, false, NotStarted, [], Log(0, 0, 0, 0))
  }

  /** What the calling thread sees of a call: it is over, or a callback has been entered. */
  datatype Outcome<+R> = Returned | Answered(yes: bool) | Got(result: R) | Raised(e: Exception) | Entered | Unwound

  datatype Event<+P, +R> =
    | Cancel
    | Execute
    | Get
    | TimedGet
    | LoopCallback
    | CallbackReturns
    | CallbackThrows
    | Publish(progress: P)      // on the background thread, like the next two
    | Throw
    | Complete(result: R)

  /** The recursive mutex is held by the calling thread while it is inside these callbacks. */
  predicate Locked(stack: seq<Frame>)
  {
    exists i :: 0 <= i < |stack| && !stack[i].PreExecute?
  }

  predicate Enabled<P, R>(s: State<P, R>, e: Event<P, R>)
  {
    match e
    case Get => s.status.Running? && s.future.Valid? ==> s.worker.Done?
    case CallbackReturns => s.stack != []
    case CallbackThrows => s.stack != []
    case Publish(_) => s.worker.Working? && !Locked(s.stack)
    case Throw => s.worker.Working? && !Locked(s.stack)
    case Complete(_) => s.worker.Working? || s.worker.Threw?
    case _ => true
  }

  function Push<P, R>(s: State<P, R>, f: Frame): State<P, R> { s.(stack := s.stack + [f]) }

  function Pop<P, R>(s: State<P, R>): State<P, R>
    requires s.stack != []
  {
    s.(stack := s.stack[..|s.stack| - 1])
  }

  function Top<P, R>(s: State<P, R>): Frame
    requires s.stack != []
  {
    s.stack[|s.stack| - 1]
  }

  function Cancelled<P, R>(s: State<P, R>): State<P, R>
  {
    if s.status.Finished? || s.cancelled then s else s.(cancelled := true)
  }

  function Executed<P, R>(s: State<P, R>): (State<P, R>, Outcome<R>)
  {
    if s.cancelled then (s, Returned)
    else
      match s.status
      case Running => (s, Raised(AlreadyRunning))
      case Finished => (s, Raised(AlreadyFinished))
      case Pending =>
        (Push(s.(status := Running, log := s.log.(preExecutes := s.log.preExecutes + 1)), PreExecute), Entered)
  }

  /** The future is emptied, the task is finished, and the callback for it is entered. */
  function Finish<P, R>(s: State<P, R>, caller: Caller): State<P, R>
    requires s.worker.Done?
  {
    var log := s.log.(retrieved := s.log.retrieved + 1);
    Push(s.(result := s.worker.result, future := Consumed, status := Finished,
            log := if s.cancelled then log.(onCancelled := log.onCancelled + 1)
                   else log.(onPostExecute := log.onPostExecute + 1)),
         Finishing(caller))
  }

  function Gotten<P, R>(s: State<P, R>): (State<P, R>, Outcome<R>)
    requires Enabled(s, Get)
  {
    if s.status.Pending? then (s, Raised(IsPending))
    else if s.status.Running? then
      if !s.future.Valid? then (s, Raised(NoState)) else (Finish(s, FromGet), Entered)
    else if s.cancelled then (s, Raised(IsCancelled))
    else (s, Got(s.result))
  }

  /** With a timeout; a finished task's cancellation is not looked at. */
  function GottenInTime<P, R>(s: State<P, R>): (State<P, R>, Outcome<R>)
  {
    if s.status.Pending? then (s, Raised(IsPending))
    else if s.status.Running? then
      if !s.future.Valid? then (s, Raised(NoState))
      else if !s.worker.Done? then (s, Raised(WaitTimeout))
      else (Finish(s, FromTimedGet), Entered)
    else (s, Got(s.result))
  }

  function Looped<P, R>(s: State<P, R>): (State<P, R>, Outcome<R>)
  {
    if s.status.Finished? then (s, Answered(true))
    else if s.status.Pending? || !s.future.Valid? then (s, Answered(false))
    else if !s.worker.Done? then (Push(s, ProgressUpdate), Entered)
    else (Finish(s, FromLoop), Entered)
  }

  /** The innermost callback ends, and with it the call that ran it. */
  function BackFrom<P, R>(s: State<P, R>): (State<P, R>, Outcome<R>)
    requires s.stack != []
  {
    match Top(s)
    case PreExecute => (Pop(s).(future := Valid, worker := Working), Returned)
    case ProgressUpdate => (Pop(s), Answered(false))
    case Finishing(caller) =>
      (Pop(s),
       if s.rethrow then Raised(FromTask)
       else if caller.FromLoop? then Answered(true)
       else if s.cancelled then Raised(IsCancelled)
       else Got(s.result))
  }

  function Published<P, R>(s: State<P, R>, p: P): State<P, R>
  {
    if !s.status.Running? || s.cancelled then s else s.(progress := p)
  }

  function Next<P, R>(s: State<P, R>, e: Event<P, R>): (State<P, R>, Outcome<R>)
    requires Enabled(s, e)
  {
    match e
    case Cancel => (Cancelled(s), Returned)
    case Execute => Executed(s)
    case Get => Gotten(s)
    case TimedGet => GottenInTime(s)
    case LoopCallback => Looped(s)
    case CallbackReturns => BackFrom(s)
    case CallbackThrows => (Pop(s), Unwound)
    case Publish(p) => (Published(s, p), Returned)
    case Throw => (Cancelled(s).(rethrow := true, worker := Threw), Returned)
    case Complete(r) => (s.(worker := Done(if s.worker.Threw? then s.empty else r)), Returned)
  }

  /** The state after a run; None if a step was not possible. */
  function Exec<P, R>(s: State<P, R>, run: seq<Event<P, R>>): Option<State<P, R>>
  {
    if run == [] then Some(s)
    else
      match Exec(s, run[..|run| - 1])
      case None => None
      case Some(t) => if Enabled(t, run[|run| - 1]) then Some(Next(t, run[|run| - 1]).0) else None
  }

  // -------------------------------------------------------------- invariant

  /** What status, future, worker and log have to do with each other. */
  ghost predicate Inv<P, R>(s: State<P, R>)
  {
    (s.status.Pending? ==> s.future.NoFuture? && s.stack == []) &&
    (s.future.NoFuture? <==> s.worker.NotStarted?) &&
    (s.future.Consumed? <==> s.status.Finished?) &&
    (s.status.Finished? ==> s.worker.Done? && s.result == s.worker.result) &&
    (s.rethrow ==> s.cancelled && (s.worker.Threw? || s.worker == Done(s.empty))) && (s.worker.Threw? ==> s.rethrow) &&
    OnceEach(s) && Stacked(s)
  }

  predicate OnceEach<P, R>(s: State<P, R>)
  {
    s.log.preExecutes == (if s.status.Pending? then 0 else 1) &&
    s.log.retrieved == (if s.status.Finished? then 1 else 0) &&
    s.log.onCancelled == (if s.status.Finished? && s.cancelled then 1 else 0) &&
    s.log.onPostExecute == (if s.status.Finished? && !s.cancelled then 1 else 0)
  }

  /** The pre-execution callback can only be the outermost one, and runs before the thread exists. */
  predicate Stacked<P, R>(s: State<P, R>)
  {
    (forall i :: 0 <= i < |s.stack| && s.stack[i].PreExecute? ==> i == 0 && s.future.NoFuture?) &&
    (forall i :: 0 <= i < |s.stack| && s.stack[i].Finishing? ==> s.status.Finished?) &&
    (s.future.NoFuture? ==> |s.stack| <= 1)
  }

  lemma StepKeepsInv<P, R>(s: State<P, R>, e: Event<P, R>)
    requires Inv(s) && Enabled(s, e)
    ensures Inv(Next(s, e).0)
  {
  }

  /** Status only moves forward, one state at a time, and a finished task never changes its mind. */
  lemma StepMovesForward<P, R>(s: State<P, R>, e: Event<P, R>)
    requires Inv(s) && Enabled(s, e)
    ensures var t := Next(s, e).0;
      s.status.Rank() <= t.status.Rank() <= s.status.Rank() + 1 &&
      (t.status.Finished? && s.status.Running? ==> e.Get? || e.TimedGet? || e.LoopCallback?) &&
      (s.status.Finished? ==> t.cancelled == s.cancelled && t.result == s.result && t.rethrow == s.rethrow && t.log == s.log)
  {
  }

  lemma {:induction false} RunInv<P, R>(s: State<P, R>, run: seq<Event<P, R>>)
    requires Inv(s) && Exec(s, run).Some?
    ensures Inv(Exec(s, run).value)
    decreases |run|
  {
    if run != [] {
      RunInv(s, run[..|run| - 1]);
      StepKeepsInv(Exec(s, run[..|run| - 1]).value, run[|run| - 1]);
    }
  }

  // ------------------------------------------------------------ main results

  /**
   * Over every run, callbacks and a throwing body included: the future is emptied
   * at most once, the callbacks for the start and the end run at most once each,
   * and a finished task has run exactly the one that its cancel flag calls for.
   */
  lemma CallbacksRunOnce<P, R>(progress: P, empty: R, run: seq<Event<P, R>>)
    requires Exec(Init(progress, empty), run).Some?
    ensures var s := Exec(Init(progress, empty), run).value;
      s.log.preExecutes <= 1 && s.log.retrieved <= 1 &&
      s.log.onCancelled + s.log.onPostExecute == (if s.status.Finished? then 1 else 0) &&
      (s.status.Finished? ==> s.log.retrieved == 1 && (s.log.onCancelled == 1 <==> s.cancelled))
  {
    RunInv(Init(progress, empty), run);
  }

  /** However a run goes on, the status never goes back, and what a finished task has decided stays. */
  lemma {:induction false} StatusIsMonotone<P, R>(s: State<P, R>, run: seq<Event<P, R>>)
    requires Inv(s) && Exec(s, run).Some?
    ensures var t := Exec(s, run).value;
      s.status.Rank() <= t.status.Rank() &&
      (s.status.Finished? ==> t.cancelled == s.cancelled && t.result == s.result && t.log == s.log)
    decreases |run|
  {
    if run != [] {
      var t := Exec(s, run[..|run| - 1]).value;
      StatusIsMonotone(s, run[..|run| - 1]);
      RunInv(s, run[..|run| - 1]);
      StepMovesForward(t, run[|run| - 1]);
    }
  }

  /** A task that is cancelled before it has been started never runs, however often it is started. */
  lemma {:induction false} CancelledNeverRuns<P, R>(s: State<P, R>, run: seq<Event<P, R>>)
    requires Inv(s) && s.status.Pending? && s.cancelled && Exec(s, run).Some?
    ensures var t := Exec(s, run).value;
      t.status.Pending? && t.cancelled && t.worker.NotStarted? && t.stack == [] && t.log == s.log && Inv(t)
    decreases |run|
  {
    if run != [] {
      CancelledNeverRuns(s, run[..|run| - 1]);
      StepKeepsInv(Exec(s, run[..|run| - 1]).value, run[|run| - 1]);
    }
  }

  /** Once a task is cancelled or finished, its progress stays as it is. */
  lemma {:induction false} ProgressStops<P, R>(s: State<P, R>, run: seq<Event<P, R>>)
    requires Inv(s) && (s.cancelled || s.status.Finished?) && Exec(s, run).Some?
    ensures var t := Exec(s, run).value; t.progress == s.progress && (t.cancelled || t.status.Finished?)
    decreases |run|
  {
    if run != [] {
      ProgressStops(s, run[..|run| - 1]);
    }
  }

  /** A running task that is not cancelled shows the last progress that was published. */
  lemma ProgressShows<P, R>(s: State<P, R>, p: P)
    requires Inv(s) && s.status.Running? && !s.cancelled && Enabled(s, Publish(p))
    ensures Next(s, Publish(p)).0 == s.(progress := p)
  {
  }

  /** A body that threw leaves the task cancelled, and whoever finishes it gets the exception. */
  lemma ThrownIsRaised<P, R>(s: State<P, R>)
    requires Inv(s) && s.rethrow
    ensures s.cancelled
    ensures s.stack != [] && Top(s).Finishing? ==> BackFrom(s).1 == Raised(FromTask)
    ensures s.status.Finished? ==> s.log.onCancelled == 1 && s.log.onPostExecute == 0 && s.result == s.empty
  {
  }

  /** `get` hands out a result exactly when the task is finished and was not cancelled, and it is the body's. */
  lemma GetGivesTheResult<P, R>(s: State<P, R>)
    requires Inv(s) && Enabled(s, Get)
    ensures Gotten(s).1.Got? <==> s.status.Finished? && !s.cancelled
    ensures Gotten(s).1.Got? ==> s.worker.Done? && Gotten(s).1.result == s.worker.result && Gotten(s).0 == s
  {
  }

  /** The form with a timeout agrees with it but for a finished task that was cancelled: that gives its result. */
  lemma TimedGetDiffers<P, R>(s: State<P, R>)
    requires Inv(s) && Enabled(s, Get)
    ensures (GottenInTime(s).1 == Gotten(s).1) <==> !(s.status.Finished? && s.cancelled)
    ensures s.status.Finished? && s.cancelled ==>
      Gotten(s).1 == Raised(IsCancelled) && GottenInTime(s).1 == Got(s.result)
  {
  }

  /**
   * Waiting for the result inside a progress callback: the mutex is held, so the
   * body can neither publish nor report an exception, and `get` cannot return
   * before the body ends.
   */
  lemma GetInsideProgressWaits<P, R>(s: State<P, R>, p: P)
    requires Inv(s) && s.worker.Working? && s.stack != [] && Top(s).ProgressUpdate?
    ensures !Enabled(s, Get) && !Enabled(s, Publish(p)) && !Enabled(s, Throw)
    ensures forall r :: !Enabled(Next(s, Complete(r)).0, Throw) && Enabled(Next(s, Complete(r)).0, Get)
  {
    assert !s.stack[|s.stack| - 1].PreExecute?;
  }

  lemma ExecPush<P, R>(s: State<P, R>, run: seq<Event<P, R>>, e: Event<P, R>)
    requires Exec(s, run).Some? && Enabled(Exec(s, run).value, e)
    ensures Exec(s, run + [e]) == Some(Next(Exec(s, run).value, e).0)
  {
    assert (run + [e])[..|run|] == run;
  }

  /** A task that has been started, its background thread at work. */
  lemma StartedInARun<P, R>(progress: P, empty: R) returns (run: seq<Event<P, R>>)
    ensures Exec(Init(progress, empty), run).Some?
    ensures var s := Exec(Init(progress, empty), run).value;
      s.status.Running? && s.future.Valid? && s.worker.Working? && s.stack == [] && !s.cancelled && !s.rethrow
  {
    var s := Init<P, R>(progress, empty);
    run := [];
    ExecPush(s, run, Event<P, R>.Execute);
    run := run + [Event<P, R>.Execute];
    ExecPush(s, run, Event<P, R>.CallbackReturns);
    run := run + [Event<P, R>.CallbackReturns];
  }

  /** A run after which the two forms differ: the task is cancelled while the body ends, and the loop finishes it. */
  lemma TimedGetDiffersInARun<P, R>(progress: P, empty: R, result: R) returns (run: seq<Event<P, R>>)
    ensures Exec(Init(progress, empty), run).Some?
    ensures var s := Exec(Init(progress, empty), run).value;
      s.stack == [] && Enabled(s, Get) && Gotten(s).1 == Raised(IsCancelled) && GottenInTime(s).1 == Got(result)
  {
    var s := Init<P, R>(progress, empty);
    run := StartedInARun(progress, empty);
    ExecPush(s, run, Event<P, R>.Cancel);
    run := run + [Event<P, R>.Cancel];
    ExecPush(s, run, Event<P, R>.Complete(result));
    run := run + [Event<P, R>.Complete(result)];
    ExecPush(s, run, Event<P, R>.LoopCallback);
    run := run + [Event<P, R>.LoopCallback];
    ExecPush(s, run, Event<P, R>.CallbackReturns);
    run := run + [Event<P, R>.CallbackReturns];
  }

  /** A run into a progress callback, in which nothing but the end of the body lets `get` return. */
  lemma GetWaitsInARun<P, R>(progress: P, empty: R) returns (run: seq<Event<P, R>>)
    ensures Exec(Init(progress, empty), run).Some?
    ensures var s := Exec(Init(progress, empty), run).value;
      s.status.Running? && s.worker.Working? && s.stack == [ProgressUpdate] && !Enabled(s, Get) &&
      forall e :: Enabled(s, e) && Enabled(Next(s, e).0, Get) ==> e.Complete?
  {
    var s := Init<P, R>(progress, empty);
    run := StartedInARun(progress, empty);
    ExecPush(s, run, Event<P, R>.LoopCallback);
    run := run + [Event<P, R>.LoopCallback];
  }

  // ------------------------------------------------------------- the object

  /** The task with its fields; every method is one step of the machine above. */
  class Task<P, R> {
    const empty: R
    var status: Status
    var result: R
    var future: Future
    var progress: P
    var cancelled: bool
    var rethrow: bool
    var worker: Worker<R>
    var stack: seq<Frame>
    var log: Log

    function View(): State<P, R>
      reads this
    {
      State(empty, status, result, future, progress, cancelled, rethrow, worker, stack, log)
    }

    ghost predicate Valid()
      reads this
    {
      Inv(View())
    }

    constructor (progress: P, empty: R)
      ensures Valid() && View() == Init(progress, empty)
    {
      this.empty := empty;
      status, result, future, this.progress := Pending, empty, NoFuture, progress;
      cancelled, rethrow, worker, stack, log := false, false, NotStarted, [], Log(0, 0, 0, 0);
    }

    method Cancel()
      requires Valid()
      modifies this
      ensures Valid() && View() == Cancelled(old(View()))
    {
      if status.Finished? || cancelled {
        return;
      }
      cancelled := true;
    }

    method Execute() returns (o: Outcome<R>)
      requires Valid()
      modifies this
      ensures Valid() && (View(), o) == Executed(old(View()))
    {
      if cancelled {
        return Returned;
      }
      match status
      case Running => o := Raised(AlreadyRunning);
      case Finished => o := Raised(AlreadyFinished);
      case Pending =>
        status := Running;
        log := log.(preExecutes := log.preExecutes + 1);
        stack := stack + [PreExecute];
        o := Entered;
    }

    method FinishWith(r: R, caller: Caller)
      requires Valid() && worker == Done(r) && status.Running? && future.Valid?
      modifies this
      ensures Valid() && View() == Finish(old(View()), caller)
    {
      future := Consumed;
      log := log.(retrieved := log.retrieved + 1);
      result := r;
      status := Finished;
      if cancelled {
        log := log.(onCancelled := log.onCancelled + 1);
      } else {
        log := log.(onPostExecute := log.onPostExecute + 1);
      }
      stack := stack + [Finishing(caller)];
      assert View() == Finish(old(View()), caller);
      FinishKeepsInv(old(View()), caller);
    }

    method Get() returns (o: Outcome<R>)
      requires Valid() && Enabled(View(), Event<P, R>.Get)
      modifies this
      ensures Valid() && (View(), o) == Gotten(old(View()))
    {
      if status.Pending? {
        return Raised(IsPending);
      }
      if status.Running? {
        if !future.Valid? {
          return Raised(NoState);
        }
        FinishWith(worker.result, FromGet);
        return Entered;
      }
      o := if cancelled then Raised(IsCancelled) else Got(result);
    }

    method TimedGet() returns (o: Outcome<R>)
      requires Valid()
      modifies this
      ensures Valid() && (View(), o) == GottenInTime(old(View()))
    {
      if status.Pending? {
        return Raised(IsPending);
      }
      if status.Running? {
        if !future.Valid? {
          return Raised(NoState);
        }
        if !worker.Done? {
          return Raised(WaitTimeout);
        }
        FinishWith(worker.result, FromTimedGet);
        return Entered;
      }
      o := Got(result);
    }

    method LoopCallback() returns (o: Outcome<R>)
      requires Valid()
      modifies this
      ensures Valid() && (View(), o) == Looped(old(View()))
    {
      if status.Finished? {
        return Answered(true);
      }
      if status.Pending? || !future.Valid? {
        return Answered(false);
      }
      if !worker.Done? {
        stack := stack + [ProgressUpdate];
      } else {
        FinishWith(worker.result, FromLoop);
      }
      o := Entered;
    }

    method CallbackReturns() returns (o: Outcome<R>)
      requires Valid() && stack != []
      modifies this
      ensures Valid() && (View(), o) == BackFrom(old(View()))
    {
      var top := stack[|stack| - 1];
      StepKeepsInv(View(), Event<P, R>.CallbackReturns);
      stack := stack[..|stack| - 1];
      match top
      case PreExecute =>
        future, worker := Future.Valid, Working;
        o := Returned;
      case ProgressUpdate =>
        o := Answered(false);
      case Finishing(caller) =>
        o := if rethrow then Raised(FromTask)
             else if caller.FromLoop? then Answered(true)
             else if cancelled then Raised(IsCancelled)
             else Got(result);
    }

    method PublishProgress(p: P)
      requires Valid() && Enabled(View(), Publish(p))
      modifies this
      ensures Valid() && View() == Published(old(View()), p)
    {
      if !status.Running? || cancelled {
        return;
      }
      progress := p;
    }
  }

  lemma FinishKeepsInv<P, R>(s: State<P, R>, caller: Caller)
    requires Inv(s) && s.worker.Done? && s.status.Running? && s.future.Valid?
    ensures Inv(Finish(s, caller))
  {
  }
}
