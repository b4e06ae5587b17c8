/**
 The lifecycle of one A2A task (sections 6.3 and 7.4 of the A2A protocol, version 0.2):
 the runner goroutine and any number of tasks/cancel requests, each a sequence of steps
 under the server's mutex, in every interleaving.
*/
module A2ATask {
  import opened Options

  datatype TaskState = Submitted | Working | Completed | Failed | Canceled | Rejected

  predicate IsTerminal(st: TaskState) {
    st.Completed? || st.Failed? || st.Canceled? || st.Rejected?
  }

  /** The fields the mutex guards, the cancel context, and the done channel with its Once. */
  datatype View = View(state: TaskState, result: Option<string>, errMsg: string, ctxDone: bool, once: bool, closes: nat)

  function SetState(v: View, st: TaskState, msg: string): View {
    if v.state.Canceled? then v else v.(state := st, errMsg := msg)
  }

  function Finish(v: View, result: Option<string>, errMsg: string): View {
    if v.state.Canceled? then v
    else v.(result := result, errMsg := errMsg, state := if errMsg != "" then Failed else Completed)
  }

  function CancelLocked(v: View): View {
    if IsTerminal(v.state) then v else v.(state := Canceled)
  }

  function MarkDone(v: View): View {
    if v.once then v else v.(once := true, closes := v.closes + 1)
  }

  const FRESH := View(Submitted, None, "", false, false, 0)

  class Task {
    var state: TaskState
    var result: Option<string>
    var errMsg: string
    var ctxDone: bool
    var once: bool
    var closes: nat

    constructor ()
      ensures Now() == FRESH
    {
      state, result, errMsg := Submitted, None, "";
      ctxDone, once, closes := false, false, 0;
    }

    function Now(): View
      reads this
    {
      View(state, result, errMsg, ctxDone, once, closes)
    }

    /** The locked part of setState, which also tells the caller whether to mark done. */
    method SetStateLocked(st: TaskState, msg: string) returns (terminal: bool)
      modifies this
      ensures Now() == SetState(old(Now()), st, msg) && terminal == IsTerminal(state)
    {
      if !state.Canceled? {
        state, errMsg := st, msg;
      }
      terminal := IsTerminal(state);
    }

    /** The locked part of finish. */
    method FinishLocked(res: Option<string>, msg: string)
      modifies this
      ensures Now() == Finish(old(Now()), res, msg) && IsTerminal(state)
    {
      if !state.Canceled? {
        result, errMsg := res, msg;
        if msg != "" { state := Failed; } else { state := Completed; }
      }
    }

    /** The second locked part of tasks/cancel. */
    method CancelTask()
      modifies this
      ensures Now() == CancelLocked(old(Now())) && IsTerminal(state)
    {
      if !IsTerminal(state) { state := Canceled; }
    }

    method CancelContext()
      modifies this
      ensures Now() == old(Now()).(ctxDone := true)
    {
      ctxDone := true;
    }

    method MarkDoneOnce()
      modifies this
      ensures Now() == MarkDone(old(Now()))
    {
      if !once {
        once := true;
        closes := closes + 1;
      }
    }
  }

  // ------------------------------------------------------------ the goroutines

  /** How execsvc.Run, or making its directory, ended. */
  datatype Outcome = NoDir(msg: string) | RunError(msg: string) | RunOk(result: string)

  datatype Runner =
    | Starting
    | Executing
    | Ended(outcome: Outcome)
    | Checked(outcome: Outcome, stopped: bool)   // knows whether its context is done, about to lock
    | MarkingWorking               // setState(working) met a terminal state
    | Marking                      // the closing markDone
    | Gone

  datatype Canceler = Looking | Deciding | Locking | MarkingCancel | Answered(refused: bool)

  datatype State = State(task: View, runner: Runner, cancelers: map<nat, Canceler>)

  datatype Event =
    | RunnerStarts
    | RunnerMarksWorking
    | ExecReturns(outcome: Outcome)
    | RunnerChecks
    | RunnerLocks
    | RunnerMarks
    | CancelArrives(pid: nat)
    | CancelLooks(pid: nat)
    | CancelStops(pid: nat)
    | CancelLocks(pid: nat)
    | CancelMarks(pid: nat)

  predicate Enabled(s: State, e: Event) {
    match e
    case RunnerStarts => s.runner.Starting?
    case RunnerMarksWorking => s.runner.MarkingWorking?
    case ExecReturns(_) => s.runner.Executing?
    case RunnerChecks => s.runner.Ended?
    case RunnerLocks => s.runner.Checked?
    case RunnerMarks => s.runner.Marking?
    case CancelArrives(pid) => pid !in s.cancelers
    case CancelLooks(pid) => pid in s.cancelers && s.cancelers[pid].Looking?
    case CancelStops(pid) => pid in s.cancelers && s.cancelers[pid].Deciding?
    case CancelLocks(pid) => pid in s.cancelers && s.cancelers[pid].Locking?
    case CancelMarks(pid) => pid in s.cancelers && s.cancelers[pid].MarkingCancel?
  }

  /** What the runner does under the lock once the run has ended. */
  function Conclude(v: View, o: Outcome, stopped: bool): View {
    match o
    case NoDir(msg) => Finish(v, None, "run dir: " + msg)
    case RunError(msg) => if stopped then SetState(v, Canceled, msg) else Finish(v, None, msg)
    case RunOk(result) => Finish(v, Some(result), "")
  }

  function Apply(s: State, e: Event): State
    requires Enabled(s, e)
  {
    match e
    case RunnerStarts =>
      var v := SetState(s.task, Working, "");
      s.(task := v, runner := if IsTerminal(v.state) then MarkingWorking else Executing)
    case RunnerMarksWorking => s.(task := MarkDone(s.task), runner := Executing)
    case ExecReturns(outcome) => s.(runner := Ended(outcome))
    case RunnerChecks => s.(runner := Checked(s.runner.outcome, s.task.ctxDone))
    case RunnerLocks => s.(task := Conclude(s.task, s.runner.outcome, s.runner.stopped), runner := Marking)
    case RunnerMarks => s.(task := MarkDone(s.task), runner := Gone)
    case CancelArrives(pid) => s.(cancelers := s.cancelers[pid := Looking])
    case CancelLooks(pid) =>
      s.(cancelers := s.cancelers[pid := if IsTerminal(s.task.state) then Answered(true) else Deciding])
    case CancelStops(pid) => s.(task := s.task.(ctxDone := true), cancelers := s.cancelers[pid := Locking])
    case CancelLocks(pid) => s.(task := CancelLocked(s.task), cancelers := s.cancelers[pid := MarkingCancel])
    case CancelMarks(pid) => s.(task := MarkDone(s.task), cancelers := s.cancelers[pid := Answered(false)])
  }

  ghost predicate Reaches(s: State, es: seq<Event>, t: State)
    decreases |es|
  {
    if es == [] then s == t
    else Enabled(s, es[0]) && Reaches(Apply(s, es[0]), es[1..], t)
  }

  const START := State(FRESH, Starting, map[])

  ghost predicate Inv(s: State) {
    && s.task.closes == (if s.task.once then 1 else 0)
    && (s.task.once ==> IsTerminal(s.task.state))
    && (s.task.result.Some? ==> s.task.state.Completed?)
    && (s.task.state.Completed? || s.task.state.Failed? ==> s.runner.Marking? || s.runner.Gone?)
    && (s.runner.Marking? || s.runner.MarkingWorking? ==> IsTerminal(s.task.state))
    && (s.runner.Gone? ==> s.task.once)
    && (s.task.state.Submitted? ==> s.runner.Starting?)
    && !s.task.state.Rejected?
    && (forall p :: p in s.cancelers && s.cancelers[p].MarkingCancel? ==> IsTerminal(s.task.state))
    && (forall p :: p in s.cancelers && s.cancelers[p] == Answered(false) ==> s.task.once)
  }

  lemma {:induction false} Snoc(s: State, es: seq<Event>, t: State, e: Event)
    requires Reaches(s, es, t) && Enabled(t, e)
    ensures Reaches(s, es + [e], Apply(t, e))
    decreases |es|
  {
    if es == [] {
      assert [e][1..] == [];
    } else {
      Snoc(Apply(s, es[0]), es[1..], t, e);
      assert (es + [e])[1..] == es[1..] + [e];
    }
  }

  lemma {:induction false} RunKeeps(s: State, es: seq<Event>, t: State)
    requires Inv(s) && Reaches(s, es, t)
    ensures Inv(t)
    decreases |es|
  {
    if es == [] {
    } else {
      RunKeeps(Apply(s, es[0]), es[1..], t);
    }
  }

  /** A terminal state is never left, whatever runs next. */
  lemma {:induction false} TerminalStays(es: seq<Event>, s: State, fs: seq<Event>, t: State)
    requires Reaches(START, es, s) && IsTerminal(s.task.state) && Reaches(s, fs, t)
    ensures t.task.state == s.task.state && t.task.result == s.task.result
  {
    RunKeeps(START, es, s);
    TerminalStaysFrom(s, fs, t);
  }

  lemma {:induction false} TerminalStaysFrom(s: State, es: seq<Event>, t: State)
    requires Inv(s) && IsTerminal(s.task.state) && Reaches(s, es, t)
    ensures t.task.state == s.task.state && t.task.result == s.task.result
    decreases |es|
  {
    if es == [] {
    } else {
      RunKeeps(s, [es[0]], Apply(s, es[0])) by { assert [es[0]][1..] == []; }
      TerminalStaysFrom(Apply(s, es[0]), es[1..], t);
    }
  }

  /**
   done is closed at most once, and only in a terminal state; it is closed by the time the
   runner is gone or any accepted cancel was answered.
  */
  lemma DoneClosedOnce(es: seq<Event>, s: State)
    requires Reaches(START, es, s)
    ensures s.task.closes <= 1 && (s.task.closes == 1 ==> IsTerminal(s.task.state))
    ensures s.runner.Gone? || (exists p :: p in s.cancelers && s.cancelers[p] == Answered(false)) ==> s.task.closes == 1
  {
    RunKeeps(START, es, s);
  }

  // ------------------------------------------------------------ only a cancel cancels

  predicate IsAsked(es: seq<Event>) { exists i :: 0 <= i < |es| && es[i].CancelStops? }

  /** No cancel has got as far as stopping the task's context. */
  ghost predicate Unasked(s: State) {
    && !s.task.ctxDone && !s.task.state.Canceled? && !(s.runner.Checked? && s.runner.stopped)
    && forall p :: p in s.cancelers ==>
        s.cancelers[p].Looking? || s.cancelers[p].Deciding? || s.cancelers[p] == Answered(true)
  }

  lemma UnaskedStep(s: State, e: Event)
    requires Enabled(s, e) && !e.CancelStops? && Unasked(s)
    ensures Unasked(Apply(s, e))
  {
  }

  lemma {:induction false} UnaskedRun(s: State, es: seq<Event>, t: State)
    requires Reaches(s, es, t) && Unasked(s) && !IsAsked(es)
    ensures Unasked(t)
    decreases |es|
  {
    hide Unasked, Enabled, Apply;
    if es == [] {
    } else {
      assert !es[0].CancelStops?;
      UnaskedStep(s, es[0]);
      assert forall i :: 0 <= i < |es| - 1 ==> es[1..][i] == es[i + 1];
      UnaskedRun(Apply(s, es[0]), es[1..], t);
    }
  }

  /** A task is only ever canceled, and its context only ever done, once a cancel request has stopped it. */
  lemma CanceledMeansAsked(es: seq<Event>, s: State)
    requires Reaches(START, es, s) && (s.task.state.Canceled? || s.task.ctxDone)
    ensures IsAsked(es)
  {
    if !IsAsked(es) { UnaskedRun(START, es, s); }
  }

  /** A task canceled before it finished stays canceled and never reports a result. */
  lemma CanceledReportsNothing(es: seq<Event>, s: State, fs: seq<Event>, t: State)
    requires Reaches(START, es, s) && s.task.state.Canceled? && Reaches(s, fs, t)
    ensures t.task.state.Canceled? && t.task.result.None?
  {
    RunKeeps(START, es, s);
    TerminalStays(es, s, fs, t);
  }

  /** A result is only ever held by a completed task. */
  lemma ResultMeansCompleted(es: seq<Event>, s: State)
    requires Reaches(START, es, s) && s.task.result.Some?
    ensures s.task.state.Completed? && s.task.errMsg == ""
  {
    RunKeeps(START, es, s);
    ResultHasNoError(START, es, s);
  }

  lemma {:induction false} ResultHasNoError(s: State, es: seq<Event>, t: State)
    requires Inv(s) && Reaches(s, es, t) && (s.task.result.Some? ==> s.task.errMsg == "")
    ensures t.task.result.Some? ==> t.task.errMsg == ""
    decreases |es|
  {
    if es == [] {
    } else {
      RunKeeps(s, [es[0]], Apply(s, es[0])) by { assert [es[0]][1..] == []; }
      ResultHasNoError(Apply(s, es[0]), es[1..], t);
    }
  }
}
