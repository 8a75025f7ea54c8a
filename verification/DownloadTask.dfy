// A download: an asynchronous task that shows its progress to listeners and whose
// handler, called again and again by the user interface, remembers when the loop
// callback said that the task has finished.
module DownloadTask {
  import opened Options
  import opened AsyncTask
  import Align

  datatype Progress = Progress(size: nat, current: nat, percentage: nat)

  /** An event and whether `isFinished` was true when it was fired. */
  datatype Fired = Fired(progress: Progress, sawFinished: bool)

  /** Who called the loop callback that a frame belongs to. */
  datatype Site = Handler | Elsewhere

  datatype Download<+R> = Download(
    task: State<Progress, R>,
    sites: seq<Site>,          // for each frame of the task's stack
    finished: bool,            // the handler's flag
    active: bool,              // the handler has been started and not paused
    prevCurrent: nat,
    fired: seq<Fired>,
    longRunning: bool
  )

  /** `recent`: the last update was less than a second ago. */
  datatype Action<+R> =
    | Start
    | Stop
    | RunHandler(recent: bool)
    | CallLoop(recent: bool)
    | CallGet(recent: bool)
    | CallTimedGet(recent: bool)
    | ListenersReturn
    | ListenersThrow
    | Report(size: nat, current: nat)    // on the background thread, like the next two
    | BodyThrows
    | BodyEnds(result: R)

  function New<R>(empty: R): Download<R>
  {
    Download(Init(Progress(0, 0, 0), empty), [], false, false, 0, [], false)
  }

  function Percentage(size: nat, current: nat): nat { if size == 0 then 0 else current * 100 / size }

  // ---------------------------------------------------- the task's callbacks

  /** Whether a progress update goes out to the listeners. */
  predicate Due<R>(d: Download<R>, p: Progress, recent: bool)
  {
    (p.current > d.prevCurrent || (p.current == d.prevCurrent && (p.size == 0 || p.current >= p.size))) &&
    !d.task.cancelled &&
    !(recent && ((p.size != 0 && p.current < p.size) || d.task.status.Running?))
  }

  /** The final update fills in a size that was never known. */
  function Shown(p: Progress, status: Status): Progress
  {
    if p.size == 0 && status.Finished? then Progress(p.current, p.current, 100) else p
  }

  function Fire<R>(d: Download<R>, p: Progress): Download<R>
  {
    d.(prevCurrent := p.current, fired := d.fired + [Fired(Shown(p, d.task.status), d.finished)])
  }

  /** The innermost callback is over; the handler notes what its own loop callback returned. */
  function Leave<R>(d: Download<R>): Download<R>
    requires d.task.stack != [] && |d.sites| == |d.task.stack|
  {
    var (t, o) := BackFrom(d.task);
    var n := |d.sites| - 1;
    d.(task := t, sites := d.sites[..n],
       finished := if d.sites[n].Handler? && o.Answered? then o.yes else d.finished)
  }

  /** `onProgressUpdate` in a running task; the listeners' turn if an event goes out. */
  function Updating<R>(d: Download<R>, recent: bool): Download<R>
    requires d.task.stack != [] && |d.sites| == |d.task.stack|
  {
    if Due(d, d.task.progress, recent) then Fire(d, d.task.progress) else Leave(d)
  }

  /**
   * `onCancelled` or `onPostExecute`.  The latter fires the handler, whose nested
   * loop callback sees a finished task, and updates the progress one last time.
   */
  function Ending<R>(d: Download<R>, recent: bool): Download<R>
    requires d.task.stack != [] && |d.sites| == |d.task.stack|
  {
    if d.task.cancelled then Leave(d.(active := false, longRunning := false))
    else
      var fired := d.(finished := true, active := false);
      if Due(fired, fired.task.progress, recent) then Fire(fired, fired.task.progress)
      else Leave(fired.(longRunning := false))
  }

  /** What follows a call of the task that may have entered a callback. */
  function After<R>(d: Download<R>, t: State<Progress, R>, o: Outcome<R>, site: Site, recent: bool): Download<R>
    requires |d.sites| == |d.task.stack|
    requires o.Entered? ==> t.stack != [] && t.stack[..|t.stack| - 1] == d.task.stack
  {
    if !o.Entered? then d.(finished := if site.Handler? && o.Answered? then o.yes else d.finished)
    else
      var inside := d.(task := t, sites := d.sites + [site]);
      if Top(t).ProgressUpdate? then Updating(inside, recent) else Ending(inside, recent)
  }

  // ------------------------------------------------------------------ steps

  predicate Possible<R>(d: Download<R>, a: Action<R>)
  {
    |d.sites| == |d.task.stack| &&
    match a
    case RunHandler(_) => d.active && d.task.stack == []
    case CallGet(_) => Enabled(d.task, Get)
    case ListenersReturn => d.task.stack != []
    case ListenersThrow => d.task.stack != []
    case Report(_, _) => d.task.worker.Working? && !Locked(d.task.stack)
    case BodyThrows => Enabled(d.task, Throw)
    case BodyEnds(r) => Enabled(d.task, Complete(r))
    case _ => true
  }

  function Looping<R>(d: Download<R>, site: Site, recent: bool): Download<R>
    requires |d.sites| == |d.task.stack|
  {
    var (t, o) := Looped(d.task);
    After(d, t, o, site, recent)
  }

  /** Starting runs the whole pre-execution callback, which starts the handler. */
  function Started<R>(d: Download<R>): Download<R>
  {
    var (t, o) := Executed(d.task);
    if o.Entered? then d.(task := BackFrom(t).0, active := true, longRunning := true) else d
  }

  function Act<R>(d: Download<R>, a: Action<R>): Download<R>
    requires Possible(d, a)
  {
    match a
    case Start => Started(d)
    case Stop => d.(task := Cancelled(d.task))
    case RunHandler(recent) => if d.finished then d else Looping(d, Handler, recent)
    case CallLoop(recent) => Looping(d, Elsewhere, recent)
    case CallGet(recent) => (var (t, o) := Gotten(d.task); After(d, t, o, Elsewhere, recent))
    case CallTimedGet(recent) => (var (t, o) := GottenInTime(d.task); After(d, t, o, Elsewhere, recent))
    case ListenersReturn => Leave(if Top(d.task).Finishing? then d.(longRunning := false) else d)
    case ListenersThrow => d.(task := Pop(d.task), sites := d.sites[..|d.sites| - 1])
    case Report(size, current) =>
      if d.task.cancelled then d else d.(task := Published(d.task, Progress(size, current, Percentage(size, current))))
    case BodyThrows => d.(task := Next(d.task, Throw).0)
    case BodyEnds(r) => d.(task := Next(d.task, Complete(r)).0)
  }

  /** The state after a run of actions; None if one was not possible. */
  function Run<R>(d: Download<R>, run: seq<Action<R>>): Option<Download<R>>
  {
    if run == [] then Some(d)
    else
      match Run(d, run[..|run| - 1])
      case None => None
      case Some(t) => if Possible(t, run[|run| - 1]) then Some(Act(t, run[|run| - 1])) else None
  }

  // -------------------------------------------------------------- invariant

  /** The handler's loop callback is always the outermost call. */
  predicate Framed<R>(d: Download<R>)
  {
    |d.sites| == |d.task.stack| &&
    (forall i :: 0 <= i < |d.sites| && d.sites[i].Handler? ==> i == 0) &&
    (forall i :: 0 <= i < |d.task.stack| ==> !d.task.stack[i].PreExecute?)
  }

  /** The handler's flag is only up for a finished task, and while listeners run, for one that was not cancelled. */
  predicate Honest<R>(d: Download<R>)
  {
    d.finished ==> d.task.status.Finished? && (d.task.stack != [] ==> !d.task.cancelled)
  }

  function Saw(fired: seq<Fired>): nat
  {
    if fired == [] then 0 else Saw(fired[..|fired| - 1]) + (if fired[|fired| - 1].sawFinished then 1 else 0)
  }

  predicate Ordered(fired: seq<Fired>, prev: nat)
  {
    (forall i, j :: 0 <= i < j < |fired| ==> fired[i].progress.current <= fired[j].progress.current) &&
    (forall i :: 0 <= i < |fired| ==> fired[i].progress.current <= prev)
  }

  ghost predicate Good<R>(d: Download<R>)
  {
    Inv(d.task) && Framed(d) && Honest(d) && Ordered(d.fired, d.prevCurrent) &&
    Saw(d.fired) <= d.task.log.onPostExecute
  }

  lemma SawPush(fired: seq<Fired>, f: Fired)
    ensures Saw(fired + [f]) == Saw(fired) + (if f.sawFinished then 1 else 0)
  {
    assert (fired + [f])[..|fired|] == fired;
  }

  /** Going back out of a callback, the stack's other frames stay. */
  lemma LeaveKeeps<R>(d: Download<R>)
    requires Good(d) && d.task.stack != []
    ensures Good(Leave(d))
  {
    StepKeepsInv(d.task, Event<Progress, R>.CallbackReturns);
  }

  lemma FireKeeps<R>(d: Download<R>, p: Progress, recent: bool)
    requires Inv(d.task) && Framed(d) && Honest(d) && Ordered(d.fired, d.prevCurrent) && Due(d, p, recent)
    requires Saw(d.fired) + (if d.finished then 1 else 0) <= d.task.log.onPostExecute
    ensures Good(Fire(d, p))
  {
    SawPush(d.fired, Fired(Shown(p, d.task.status), d.finished));
  }

  /** A call from `site` has entered a callback of the task. */
  ghost predicate Inside<R>(was: Download<R>, d: Download<R>)
  {
    Good(was) && Inv(d.task) && Framed(d) && d.task.stack != [] &&
    d.finished == was.finished && d.fired == was.fired && d.prevCurrent == was.prevCurrent && was.task.status.Running?
  }

  lemma UpdatingKeeps<R>(was: Download<R>, d: Download<R>, recent: bool)
    requires Inside(was, d) && d.task.log == was.task.log && d.task.status.Running?
    ensures Good(Updating(d, recent))
  {
    if Due(d, d.task.progress, recent) {
      FireKeeps(d, d.task.progress, recent);
    } else {
      LeaveKeeps(d);
    }
  }

  lemma EndingKeeps<R>(was: Download<R>, d: Download<R>, recent: bool)
    requires Inside(was, d) && d.task.status.Finished? && d.task.stack[|d.task.stack| - 1].Finishing?
    requires d.sites[|d.sites| - 1].Handler? ==> |d.sites| == 1
    ensures Good(Ending(d, recent))
  {
    if d.task.cancelled {
      LeaveKeeps(d.(active := false, longRunning := false));
    } else {
      var fired := d.(finished := true, active := false);
      if Due(fired, fired.task.progress, recent) {
        FireKeeps(fired, fired.task.progress, recent);
      } else {
        LeaveKeeps(fired.(longRunning := false));
      }
    }
  }

  lemma EnteredKeeps<R>(d: Download<R>, t: State<Progress, R>, site: Site, recent: bool)
    requires Good(d) && Framed(d) && d.task.status.Running? && Inv(t) && (site.Handler? ==> d.task.stack == [])
    requires (t == Push(d.task, ProgressUpdate)) || (d.task.worker.Done? && exists c :: t == Finish(d.task, c))
    ensures Good(After(d, t, Entered, site, recent))
  {
    hide Good, Inv, Updating, Ending;
    var inside := d.(task := t, sites := d.sites + [site]);
    assert t.stack[..|t.stack| - 1] == d.task.stack;
    if t == Push(d.task, ProgressUpdate) {
      UpdatingKeeps(d, inside, recent);
    } else {
      EndingKeeps(d, inside, recent);
    }
  }

  lemma LoopingKeeps<R>(d: Download<R>, site: Site, recent: bool)
    requires Good(d) && (site.Handler? ==> d.task.stack == [] && !d.finished)
    ensures Good(Looping(d, site, recent))
  {
    var (t, o) := Looped(d.task);
    StepKeepsInv(d.task, Event<Progress, R>.LoopCallback);
    if o.Entered? {
      EnteredKeeps(d, t, site, recent);
    }
  }

  lemma GettingKeeps<R>(d: Download<R>, recent: bool, timed: bool)
    requires Good(d) && (!timed ==> Enabled(d.task, Get))
    ensures var (t, o) := if timed then GottenInTime(d.task) else Gotten(d.task); Good(After(d, t, o, Elsewhere, recent))
  {
    var (t, o) := if timed then GottenInTime(d.task) else Gotten(d.task);
    StepKeepsInv(d.task, if timed then Event<Progress, R>.TimedGet else Event<Progress, R>.Get);
    if o.Entered? {
      EnteredKeeps(d, t, Elsewhere, recent);
    }
  }

  lemma StartedKeeps<R>(d: Download<R>)
    requires Good(d)
    ensures Good(Started(d))
  {
    var (t, o) := Executed(d.task);
    StepKeepsInv(d.task, Event<Progress, R>.Execute);
    if o.Entered? {
      StepKeepsInv(t, Event<Progress, R>.CallbackReturns);
    }
  }

  lemma BodyKeeps<R>(d: Download<R>, e: Event<Progress, R>)
    requires Good(d) && Enabled(d.task, e) && (e.Publish? || e.Throw? || e.Complete? || e.Cancel?)
    ensures Good(d.(task := Next(d.task, e).0))
  {
    StepKeepsInv(d.task, e);
  }

  lemma ActKeeps<R>(d: Download<R>, a: Action<R>)
    requires Good(d) && Possible(d, a)
    ensures Good(Act(d, a))
  {
    match a
    case Start => StartedKeeps(d);
    case Stop => BodyKeeps(d, Event<Progress, R>.Cancel);
    case RunHandler(recent) => if !d.finished { LoopingKeeps(d, Handler, recent); }
    case CallLoop(recent) => LoopingKeeps(d, Elsewhere, recent);
    case CallGet(recent) => GettingKeeps(d, recent, false);
    case CallTimedGet(recent) => GettingKeeps(d, recent, true);
    case ListenersReturn => LeaveKeeps(if Top(d.task).Finishing? then d.(longRunning := false) else d);
    case ListenersThrow => StepKeepsInv(d.task, Event<Progress, R>.CallbackThrows);
    case Report(size, current) => BodyKeeps(d, Publish(Progress(size, current, Percentage(size, current))));
    case BodyThrows => BodyKeeps(d, Event<Progress, R>.Throw);
    case BodyEnds(r) => BodyKeeps(d, Complete(r));
  }

  lemma {:induction false} RunKeeps<R>(d: Download<R>, run: seq<Action<R>>)
    requires Good(d) && Run(d, run).Some?
    ensures Good(Run(d, run).value)
    decreases |run|
  {
    if run != [] {
      RunKeeps(d, run[..|run| - 1]);
      ActKeeps(Run(d, run[..|run| - 1]).value, run[|run| - 1]);
    }
  }

  // ------------------------------------------------------------ main results

  /**
   * A listener that sees `isFinished()` can call `get()`: it does not wait, it does
   * not throw, it enters no further callback, and it hands out the body's result.
   */
  lemma ListenersMayGet<R>(empty: R, run: seq<Action<R>>)
    requires Run(New(empty), run).Some?
    ensures var d := Run(New(empty), run).value;
      d.finished && d.task.stack != [] ==>
        Enabled(d.task, Get) && d.task.worker.Done? && Gotten(d.task) == (d.task, Got(d.task.worker.result))
  {
    RunKeeps(New(empty), run);
  }

  /** Events that find the download finished are fired at most once, and no event goes back in the data. */
  lemma EventsInOrder<R>(empty: R, run: seq<Action<R>>)
    requires Run(New(empty), run).Some?
    ensures var fired := Run(New(empty), run).value.fired;
      Saw(fired) <= 1 &&
      forall i, j :: 0 <= i < j < |fired| ==> fired[i].progress.current <= fired[j].progress.current
  {
    RunKeeps(New(empty), run);
  }

  /** The amounts that the body reports, in order. */
  function Reported<R>(run: seq<Action<R>>): seq<nat>
  {
    if run == [] then []
    else
      Reported(run[..|run| - 1]) + if run[|run| - 1].Report? then [run[|run| - 1].current] else []
  }

  predicate Ascending(amounts: seq<nat>)
  {
    forall i, j :: 0 <= i < j < |amounts| ==> amounts[i] <= amounts[j]
  }

  /** Nothing has been shown that is ahead of the progress, and the progress is not ahead of what was reported. */
  predicate InStep<R>(d: Download<R>, amounts: seq<nat>)
  {
    d.prevCurrent <= d.task.progress.current &&
    (d.task.progress.current == 0 || exists i :: 0 <= i < |amounts| && amounts[i] == d.task.progress.current)
  }

  lemma ReportedNext<R>(run: seq<Action<R>>)
    requires run != [] && Ascending(Reported(run))
    ensures Ascending(Reported(run[..|run| - 1]))
  {
    var n := |run| - 1;
    assert forall i :: 0 <= i < |Reported(run[..n])| ==> Reported(run)[i] == Reported(run[..n])[i];
  }

  /** As long as the amounts that the body reports do not go back, neither does what is shown. */
  lemma {:induction false} RunInStep<R>(empty: R, run: seq<Action<R>>)
    requires Run(New(empty), run).Some? && Ascending(Reported(run))
    ensures InStep(Run(New(empty), run).value, Reported(run))
    decreases |run|
  {
    if run != [] {
      var n := |run| - 1;
      var d, a := Run(New(empty), run[..n]).value, run[n];
      hide Act, Possible, InStep, Ascending, ShowsProgress, Good;
      ReportedNext(run);
      RunInStep(empty, run[..n]);
      RunKeeps(New(empty), run[..n]);
      ActInStep(d, a, Reported(run[..n]), Reported(run));
    }
  }

  /** What is shown is the progress at that moment. */
  predicate ShowsProgress<R>(d: Download<R>, t: Download<R>)
  {
    t.task.progress == d.task.progress && (t.prevCurrent == d.prevCurrent || t.prevCurrent == d.task.progress.current)
  }

  lemma AfterShows<R>(d: Download<R>, t: State<Progress, R>, o: Outcome<R>, site: Site, recent: bool)
    requires |d.sites| == |d.task.stack| && t.progress == d.task.progress
    requires o.Entered? ==> t.stack != [] && t.stack[..|t.stack| - 1] == d.task.stack
    ensures ShowsProgress(d, After(d, t, o, site, recent))
  {
    hide Updating, Ending;
    if o.Entered? {
      var inside := d.(task := t, sites := d.sites + [site]);
      if Top(t).ProgressUpdate? {
        UpdatingShows(inside, recent);
      } else {
        EndingShows(inside, recent);
      }
    }
  }

  lemma UpdatingShows<R>(d: Download<R>, recent: bool)
    requires d.task.stack != [] && |d.sites| == |d.task.stack|
    ensures ShowsProgress(d, Updating(d, recent))
  {
  }

  lemma EndingShows<R>(d: Download<R>, recent: bool)
    requires d.task.stack != [] && |d.sites| == |d.task.stack|
    ensures ShowsProgress(d, Ending(d, recent))
  {
  }

  lemma CallShows<R>(d: Download<R>, a: Action<R>)
    requires Possible(d, a) && (a.RunHandler? || a.CallLoop? || a.CallGet? || a.CallTimedGet?)
    ensures ShowsProgress(d, Act(d, a))
  {
    hide After;
    match a
    case RunHandler(recent) =>
      if !d.finished {
        AfterShows(d, Looped(d.task).0, Looped(d.task).1, Handler, recent);
      }
    case CallLoop(recent) => AfterShows(d, Looped(d.task).0, Looped(d.task).1, Elsewhere, recent);
    case CallGet(recent) => AfterShows(d, Gotten(d.task).0, Gotten(d.task).1, Elsewhere, recent);
    case CallTimedGet(recent) => AfterShows(d, GottenInTime(d.task).0, GottenInTime(d.task).1, Elsewhere, recent);
  }

  lemma OtherShows<R>(d: Download<R>, a: Action<R>)
    requires Possible(d, a) && !a.Report? && !a.RunHandler? && !a.CallLoop? && !a.CallGet? && !a.CallTimedGet?
    ensures ShowsProgress(d, Act(d, a))
  {
  }

  lemma ActInStep<R>(d: Download<R>, a: Action<R>, before: seq<nat>, after: seq<nat>)
    requires Possible(d, a) && InStep(d, before) && Ascending(after)
    requires after == before + if a.Report? then [a.current] else []
    ensures InStep(Act(d, a), after)
  {
    if a.Report? {
      ReportInStep(d, a, before, after);
    } else {
      assert after == before;
      if a.RunHandler? || a.CallLoop? || a.CallGet? || a.CallTimedGet? {
        CallShows(d, a);
      } else {
        OtherShows(d, a);
      }
    }
  }

  lemma ReportInStep<R>(d: Download<R>, a: Action<R>, before: seq<nat>, after: seq<nat>)
    requires Possible(d, a) && a.Report? && InStep(d, before) && Ascending(after) && after == before + [a.current]
    ensures InStep(Act(d, a), after)
  {
    assert after[|before|] == a.current;
    if d.task.progress.current != 0 {
      var i :| 0 <= i < |before| && before[i] == d.task.progress.current;
      assert after[i] == before[i];
    }
  }

  predicate Finishes<R>(d: Download<R>, a: Action<R>)
    requires Possible(d, a)
  {
    d.task.status.Running? && Act(d, a).task.status.Finished?
  }

  lemma FinishFires<R>(d: Download<R>, caller: Caller, site: Site, recent: bool)
    requires |d.sites| == |d.task.stack| && d.task.worker.Done? && !d.task.cancelled
    requires var p := d.task.progress; d.prevCurrent <= p.current && (p.size == 0 || p.current == p.size)
    ensures After(d, Finish(d.task, caller), Entered, site, recent).fired ==
      d.fired + [Fired(Shown(d.task.progress, Finished), true)]
  {
  }

  /** Finishing shows the progress once more if there is any of it to show. */
  lemma FinishingShows<R>(d: Download<R>, a: Action<R>)
    requires Possible(d, a) && Finishes(d, a) && !d.task.cancelled && d.prevCurrent <= d.task.progress.current
    requires var p := d.task.progress; p.size == 0 || p.current == p.size
    ensures Act(d, a).fired == d.fired + [Fired(Shown(d.task.progress, Finished), true)]
  {
    OnlyCallsFinish(d, a);
    hide After;
    match a
    case RunHandler(recent) => FinishFires(d, FromLoop, Handler, recent);
    case CallLoop(recent) => FinishFires(d, FromLoop, Elsewhere, recent);
    case CallGet(recent) => FinishFires(d, FromGet, Elsewhere, recent);
    case CallTimedGet(recent) => FinishFires(d, FromTimedGet, Elsewhere, recent);
  }

  lemma OnlyCallsFinish<R>(d: Download<R>, a: Action<R>)
    requires Possible(d, a) && Finishes(d, a)
    ensures a.RunHandler? || a.CallLoop? || a.CallGet? || a.CallTimedGet?
    ensures d.task.worker.Done? && d.task.future.Valid? && (a.RunHandler? ==> !d.finished)
  {
    hide After;
    match a
    case RunHandler(recent) => AfterStatus(d, Looped(d.task).0, Looped(d.task).1, Handler, recent);
    case CallLoop(recent) => AfterStatus(d, Looped(d.task).0, Looped(d.task).1, Elsewhere, recent);
    case CallGet(recent) => AfterStatus(d, Gotten(d.task).0, Gotten(d.task).1, Elsewhere, recent);
    case CallTimedGet(recent) => AfterStatus(d, GottenInTime(d.task).0, GottenInTime(d.task).1, Elsewhere, recent);
    case _ =>
  }

  lemma AfterStatus<R>(d: Download<R>, t: State<Progress, R>, o: Outcome<R>, site: Site, recent: bool)
    requires |d.sites| == |d.task.stack|
    requires o.Entered? ==> t.stack != [] && t.stack[..|t.stack| - 1] == d.task.stack
    ensures After(d, t, o, site, recent).task.status == if o.Entered? then t.status else d.task.status
  {
    hide Leave, Due, Fire;
    if o.Entered? {
      var inside := d.(task := t, sites := d.sites + [site]);
      LeaveStatus(inside);
      LeaveStatus(inside.(active := false, longRunning := false));
      LeaveStatus(inside.(active := false, longRunning := false, finished := true));
      FireStatus(inside, t.progress);
      FireStatus(inside.(active := false, finished := true), t.progress);
    }
  }

  lemma LeaveStatus<R>(d: Download<R>)
    requires d.task.stack != [] && |d.sites| == |d.task.stack|
    ensures Leave(d).task.status == d.task.status
  {
  }

  lemma FireStatus<R>(d: Download<R>, p: Progress)
    ensures Fire(d, p).task.status == d.task.status
  {
  }

  /**
   * Over every run in which the body's reports do not go back: the last event of a
   * download is not held back by the one-second limit.  If all the data had been
   * reported and nothing was cancelled, the action that finishes the task fires
   * exactly one event, which finds the download finished and shows the whole size.
   */
  lemma LastEventGoesOut<R>(empty: R, run: seq<Action<R>>, a: Action<R>)
    requires Run(New(empty), run).Some? && Ascending(Reported(run)) && Possible(Run(New(empty), run).value, a)
    requires Finishes(Run(New(empty), run).value, a) && !Run(New(empty), run).value.task.cancelled
    requires var p := Run(New(empty), run).value.task.progress; p.size == 0 || p.current == p.size
    ensures var d := Run(New(empty), run).value;
      var fired, amount := Act(d, a).fired, d.task.progress.current;
      |fired| == |d.fired| + 1 && fired[..|d.fired|] == d.fired && fired[|d.fired|].sawFinished &&
      fired[|d.fired|].progress.current == fired[|d.fired|].progress.size == amount
    ensures var d := Run(New(empty), run).value;
      d.task.progress.current == 0 || d.task.progress.current in Reported(run)
  {
    RunKeeps(New(empty), run);
    RunInStep(empty, run);
    FinishingShows(Run(New(empty), run).value, a);
  }

  /**
   * While the body is at work, a look at the task fires an event exactly if the last
   * one is at least a second ago, nothing was cancelled, and the data has moved on, or
   * stands still because it is complete or of unknown size.
   */
  lemma EventsWhileRunning<R>(d: Download<R>, a: Action<R>, recent: bool)
    requires Good(d) && Possible(d, a) && (a == Action<R>.RunHandler(recent) || a == Action<R>.CallLoop(recent))
    requires d.task.status.Running? && d.task.future.Valid? && !d.task.worker.Done?
    ensures var p := d.task.progress;
      var due := !recent && !d.task.cancelled &&
        (p.current > d.prevCurrent || (p.current == d.prevCurrent && (p.size == 0 || p.current >= p.size)));
      Act(d, a).fired == if due then d.fired + [Fired(p, false)] else d.fired
  {
  }

  /** The percentage is rounded down, and full exactly for complete data. */
  lemma PercentageIs(size: nat, current: nat)
    requires current <= size
    ensures var p := Percentage(size, current);
      p <= 100 && (size > 0 ==> p * size <= current * 100 < (p + 1) * size && (p == 100 <==> current == size)) &&
      (size == 0 ==> p == 0)
  {
    if size > 0 {
      var p := Percentage(size, current);
      Rounded(current * 100, size);
      Times(p, 100, size);
      Times(100, p, size);
      Times(p + 1, 100, size);
    }
  }

  lemma Rounded(x: nat, y: nat)
    requires y > 0
    ensures (x / y) * y <= x < (x / y + 1) * y
  {
    var q, r := x / y, x % y;
    assert x == q * y + r && (q + 1) * y == q * y + y;
  }

  lemma Times(a: nat, b: nat, c: nat)
    requires c > 0
    ensures a <= b <==> a * c <= b * c
  {
    if a <= b {
      Align.Scaled(a, b, c);
    } else {
      Align.Scaled(b + 1, a, c);
      assert (b + 1) * c == b * c + c;
    }
  }

  /** While a started task has not finished, or its end is being told to listeners, the system knows of a long run. */
  predicate LongRun<R>(d: Download<R>)
  {
    d.longRunning <==>
      d.task.status.Running? || exists i :: 0 <= i < |d.task.stack| && d.task.stack[i].Finishing?
  }

  predicate NobodyThrows<R>(run: seq<Action<R>>) { forall i :: 0 <= i < |run| ==> !run[i].ListenersThrow? }

  /** The end is told once, by the innermost callback. */
  predicate OneEnd<R>(d: Download<R>)
  {
    forall i :: 0 <= i < |d.task.stack| && d.task.stack[i].Finishing? ==> i == |d.task.stack| - 1 && !d.task.cancelled
  }

  lemma ActLongRun<R>(d: Download<R>, a: Action<R>)
    requires Good(d) && LongRun(d) && OneEnd(d) && Possible(d, a) && !a.ListenersThrow?
    ensures LongRun(Act(d, a)) && OneEnd(Act(d, a))
  {
    hide After, LongRun, OneEnd, Leave;
    match a
    case RunHandler(recent) => if !d.finished { AfterLongRun(d, Looped(d.task).0, Looped(d.task).1, Handler, recent); }
    case CallLoop(recent) => AfterLongRun(d, Looped(d.task).0, Looped(d.task).1, Elsewhere, recent);
    case CallGet(recent) => AfterLongRun(d, Gotten(d.task).0, Gotten(d.task).1, Elsewhere, recent);
    case CallTimedGet(recent) => AfterLongRun(d, GottenInTime(d.task).0, GottenInTime(d.task).1, Elsewhere, recent);
    case ListenersReturn => ReturnLongRun(d);
    case _ => OtherLongRun(d, a);
  }

  lemma OtherLongRun<R>(d: Download<R>, a: Action<R>)
    requires Good(d) && LongRun(d) && OneEnd(d) && Possible(d, a)
    requires a.Start? || a.Stop? || a.Report? || a.BodyThrows? || a.BodyEnds?
    ensures LongRun(Act(d, a)) && OneEnd(Act(d, a))
  {
  }

  lemma ReturnLongRun<R>(d: Download<R>)
    requires Good(d) && LongRun(d) && OneEnd(d) && d.task.stack != []
    ensures LongRun(Act(d, Action<R>.ListenersReturn)) && OneEnd(Act(d, Action<R>.ListenersReturn))
  {
  }

  lemma AfterLongRun<R>(d: Download<R>, t: State<Progress, R>, o: Outcome<R>, site: Site, recent: bool)
    requires Good(d) && LongRun(d) && OneEnd(d)
    requires if !o.Entered? then t == d.task
             else d.task.status.Running? &&
                  (t == Push(d.task, ProgressUpdate) || (d.task.worker.Done? && exists c :: t == Finish(d.task, c)))
    ensures LongRun(After(d, t, o, site, recent)) && OneEnd(After(d, t, o, site, recent))
  {
    hide Updating, Ending, LongRun, OneEnd;
    if !o.Entered? {
      SameLongRun(d, After(d, t, o, site, recent));
    } else if t == Push(d.task, ProgressUpdate) {
      UpdatingLongRun(d, site, recent);
    } else {
      var c :| t == Finish(d.task, c);
      EndingLongRun(d, c, site, recent);
    }
  }

  lemma SameLongRun<R>(d: Download<R>, t: Download<R>)
    requires LongRun(d) && OneEnd(d) && t.task == d.task && t.longRunning == d.longRunning
    ensures LongRun(t) && OneEnd(t)
  {
  }

  lemma UpdatingLongRun<R>(d: Download<R>, site: Site, recent: bool)
    requires Good(d) && LongRun(d) && OneEnd(d) && d.task.status.Running?
    ensures var t := Updating(d.(task := Push(d.task, ProgressUpdate), sites := d.sites + [site]), recent);
      LongRun(t) && OneEnd(t)
  {
  }

  lemma EndingLongRun<R>(d: Download<R>, c: Caller, site: Site, recent: bool)
    requires Good(d) && LongRun(d) && OneEnd(d) && d.task.status.Running? && d.task.worker.Done?
    ensures var t := Ending(d.(task := Finish(d.task, c), sites := d.sites + [site]), recent);
      LongRun(t) && OneEnd(t)
  {
    var n, t := |d.task.stack|, Finish(d.task, c);
    assert t.stack[n].Finishing? && t.stack[..n] == d.task.stack;
  }

  /** Over every run in which no listener throws: outside of all callbacks that is exactly while the task runs. */
  lemma {:induction false} LongRunsEnd<R>(empty: R, run: seq<Action<R>>)
    requires Run(New(empty), run).Some? && NobodyThrows(run)
    ensures var d := Run(New(empty), run).value;
      LongRun(d) && OneEnd(d) && (d.task.stack == [] ==> (d.longRunning <==> d.task.status.Running?))
    decreases |run|
  {
    if run != [] {
      LongRunsEnd(empty, run[..|run| - 1]);
      RunKeeps(New(empty), run[..|run| - 1]);
      ActLongRun(Run(New(empty), run[..|run| - 1]).value, run[|run| - 1]);
    }
  }

  // -------------------------------------------------------- the lost flag

  /** All callbacks under way return, the innermost first. */
  function ReturnAll<R>(d: Download<R>): Download<R>
    requires |d.sites| == |d.task.stack|
    decreases |d.task.stack|
  {
    if d.task.stack == [] then d else ReturnAll(Act(d, ListenersReturn))
  }

  /**
   * A download that finished without being cancelled is forgotten by the handler
   * exactly if it finished inside a progress event of the handler's own making:
   * the outer loop callback's answer then overwrites the inner one's.
   */
  lemma {:induction false} FlagIsLost<R>(d: Download<R>)
    requires Good(d) && d.task.status.Finished? && !d.task.cancelled && d.finished
    ensures ReturnAll(d).finished <==> !(d.sites != [] && d.sites[0].Handler? && d.task.stack[0].ProgressUpdate?)
    decreases |d.task.stack|
  {
    if |d.task.stack| > 1 {
      OneReturn(d);
      FlagIsLost(Act(d, ListenersReturn));
    } else if |d.task.stack| == 1 {
      OneReturn(d);
      assert ReturnAll(d) == Act(d, ListenersReturn);
    }
  }

  lemma OneReturn<R>(d: Download<R>)
    requires Good(d) && d.task.status.Finished? && !d.task.cancelled && d.finished && d.task.stack != []
    ensures var t, n := Act(d, ListenersReturn), |d.sites| - 1;
      Good(t) && t.task.status.Finished? && !t.task.cancelled &&
      t.sites == d.sites[..n] && t.task.stack == d.task.stack[..n] &&
      t.finished == !(d.sites[n].Handler? && d.task.stack[n].ProgressUpdate?)
  {
    ActKeeps(d, Action<R>.ListenersReturn);
  }

  /** With the handler paused the flag stays as it is, whatever happens afterwards. */
  lemma {:induction false} FlagStays<R>(d: Download<R>, run: seq<Action<R>>)
    requires Good(d) && d.task.status.Finished? && d.task.stack == [] && !d.active && Run(d, run).Some?
    ensures var t := Run(d, run).value;
      t.finished == d.finished && t.task.status.Finished? && t.task.stack == [] && !t.active && Good(t)
    decreases |run|
  {
    if run != [] {
      FlagStays(d, run[..|run| - 1]);
      ActKeeps(Run(d, run[..|run| - 1]).value, run[|run| - 1]);
    }
  }

  lemma RunPush<R>(d: Download<R>, run: seq<Action<R>>, a: Action<R>)
    requires Run(d, run).Some? && Possible(Run(d, run).value, a)
    ensures Run(d, run + [a]) == Some(Act(Run(d, run).value, a))
  {
    assert (run + [a])[..|run|] == run;
  }

  /** The download up to its first progress event, with the listeners' turn. */
  lemma FirstEvent<R>(empty: R, size: nat, current: nat) returns (run: seq<Action<R>>)
    requires 0 < current < size
    ensures Run(New(empty), run).Some?
    ensures var d := Run(New(empty), run).value;
      d.task.status.Running? && d.task.worker.Working? && d.task.future.Valid? && !d.task.cancelled && !d.task.rethrow &&
      d.task.stack == [ProgressUpdate] && d.sites == [Handler] && d.prevCurrent == current &&
      d.task.progress == Progress(size, current, Percentage(size, current))
  {
    run := [];
    RunPush(New(empty), run, Action<R>.Start);
    run := run + [Action<R>.Start];
    RunPush(New(empty), run, Action<R>.Report(size, current));
    run := run + [Action<R>.Report(size, current)];
    RunPush(New(empty), run, Action<R>.RunHandler(false));
    run := run + [Action<R>.RunHandler(false)];
  }

  /** A download whose only event is its last, with the listeners' turn. */
  lemma OnlyEvent<R>(empty: R, result: R) returns (run: seq<Action<R>>)
    ensures Run(New(empty), run).Some?
    ensures var d := Run(New(empty), run).value;
      d.task.status.Finished? && d.task.stack == [Finishing(FromLoop)] && d.sites == [Elsewhere] && d.longRunning
  {
    run := [];
    RunPush(New(empty), run, Action<R>.Start);
    run := run + [Action<R>.Start];
    RunPush(New(empty), run, BodyEnds(result));
    run := run + [BodyEnds(result)];
    RunPush(New(empty), run, Action<R>.CallLoop(false));
    run := run + [Action<R>.CallLoop(false)];
  }

  /** If a listener of the last event throws, nobody takes the long run back. */
  lemma LongRunStays<R>(empty: R, result: R) returns (run: seq<Action<R>>)
    ensures Run(New(empty), run).Some?
    ensures var d := Run(New(empty), run).value; d.task.status.Finished? && d.task.stack == [] && d.longRunning
  {
    run := OnlyEvent(empty, result);
    RunPush(New(empty), run, Action<R>.ListenersThrow);
    run := run + [Action<R>.ListenersThrow];
  }

  /** There a listener waits for the result, which finishes the task inside the handler's own event. */
  lemma ResultInFirstEvent<R>(empty: R, result: R) returns (run: seq<Action<R>>)
    ensures Run(New(empty), run).Some?
    ensures var d := Run(New(empty), run).value;
      d.task.status.Finished? && !d.task.cancelled && !d.task.rethrow && d.task.result == result &&
      d.task.stack == [ProgressUpdate] && d.sites == [Handler] && d.finished && !d.active
  {
    run := FirstEvent(empty, 10, 5);
    RunPush(New(empty), run, BodyEnds(result));
    run := run + [BodyEnds(result)];
    RunPush(New(empty), run, Action<R>.CallGet(true));
    run := run + [Action<R>.CallGet(true)];
  }

  /** Such a run: a listener of the first event waits for the result and then returns. */
  lemma FlagLostInARun<R>(empty: R, result: R) returns (run: seq<Action<R>>)
    ensures Run(New(empty), run).Some?
    ensures var d := Run(New(empty), run).value;
      d.task.status.Finished? && !d.task.cancelled && d.task.result == result && d.task.stack == [] &&
      !d.finished && !d.active
  {
    run := ResultInFirstEvent(empty, result);
    RunPush(New(empty), run, Action<R>.ListenersReturn);
    run := run + [Action<R>.ListenersReturn];
  }

  // -------------------------------------------------------------- the object

  /** A download with its handler; every method is a step of the model above. */
  class DownloadObject<R> {
    const task: Task<Progress, R>
    var sites: seq<Site>
    var finished: bool
    var active: bool
    var prevCurrent: nat
    var fired: seq<Fired>
    var longRunning: bool

    function View(): Download<R>
      reads this, task
    {
      Download(task.View(), sites, finished, active, prevCurrent, fired, longRunning)
    }

    ghost predicate Valid()
      reads this, task
    {
      Good(View())
    }

    constructor (empty: R)
      ensures Valid() && View() == New(empty) && fresh(task)
    {
      task := new Task(Progress(0, 0, 0), empty);
      sites, finished, active, prevCurrent, fired, longRunning := [], false, false, 0, [], false;
    }

    /** Tells whether the listeners got an event. */
    method OnProgressUpdate(p: Progress, recent: bool) returns (sent: bool)
      modifies this`prevCurrent, this`fired
      ensures sent == Due(old(View()), p, recent)
      ensures View() == if sent then Fire(old(View()), p) else old(View())
    {
      var proceed := p.current > prevCurrent || (p.current == prevCurrent && (p.size == 0 || p.current >= p.size));
      if !proceed || task.cancelled {
        return false;
      }
      if recent && ((p.size != 0 && p.current < p.size) || task.status.Running?) {
        return false;
      }
      var shown := p;
      if p.size == 0 && task.status.Finished? {
        shown := Progress(p.current, p.current, 100);
      }
      prevCurrent := p.current;
      fired := fired + [Fired(shown, finished)];
      sent := true;
    }

    /** The callback inside is over, and with it the loop callback or `get` around it. */
    method LeaveCallback()
      requires task.Valid() && task.stack != [] && |sites| == |task.stack|
      modifies this`sites, this`finished, task
      ensures task.Valid() && View() == Leave(old(View()))
    {
      var o := task.CallbackReturns();
      var site := sites[|sites| - 1];
      sites := sites[..|sites| - 1];
      if site.Handler? && o.Answered? {
        finished := o.yes;
      }
    }

    /** Fires the handler, pauses it and updates the progress; `sent` leaves the listeners running. */
    method OnPostExecute(recent: bool) returns (sent: bool)
      requires task.Valid() && task.status.Finished? && !task.cancelled
      modifies this`finished, this`active, this`prevCurrent, this`fired, task
      ensures task.Valid()
      ensures var f := old(View()).(finished := true, active := false);
        sent == Due(f, f.task.progress, recent) && View() == if sent then Fire(f, f.task.progress) else f
    {
      if !finished {
        var o := task.LoopCallback();
        finished := o.yes;
      }
      active := false;
      sent := OnProgressUpdate(task.progress, recent);
    }

    /** The callbacks after `finish`. */
    method EndCallback(recent: bool)
      requires task.Valid() && task.status.Finished? && task.stack != [] && |sites| == |task.stack|
      modifies this, task
      ensures task.Valid() && View() == Ending(old(View()), recent)
    {
      if task.cancelled {
        active, longRunning := false, false;
        LeaveCallback();
      } else {
        var sent := OnPostExecute(recent);
        if !sent {
          longRunning := false;
          LeaveCallback();
        }
      }
    }

    /** The progress callback of a running task. */
    method UpdateCallback(recent: bool)
      requires task.Valid() && task.stack != [] && |sites| == |task.stack|
      modifies this, task
      ensures task.Valid() && View() == Updating(old(View()), recent)
    {
      var sent := OnProgressUpdate(task.progress, recent);
      if !sent {
        LeaveCallback();
      }
    }

    method Loop(site: Site, recent: bool)
      requires task.Valid() && |sites| == |task.stack|
      modifies this, task
      ensures task.Valid() && View() == Looping(old(View()), site, recent)
    {
      hide Updating, Ending, Inv;
      var o := task.LoopCallback();
      if o.Answered? {
        if site.Handler? {
          finished := o.yes;
        }
        return;
      }
      sites := sites + [site];
      if task.stack[|task.stack| - 1].ProgressUpdate? {
        UpdateCallback(recent);
      } else {
        EndCallback(recent);
      }
    }

    /** Called by the user interface while the handler is active. */
    method RunHandler(recent: bool)
      requires Valid() && active && task.stack == []
      modifies this, task
      ensures Valid() && View() == Act(old(View()), Action<R>.RunHandler(recent))
    {
      ActKeeps(View(), Action<R>.RunHandler(recent));
      if !finished {
        Loop(Handler, recent);
      }
    }
  }
}
