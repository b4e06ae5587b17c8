/**
 The goroutines of one A2A task as they run (internal/a2aserver/server.go): every step, of the runner
 or of a tasks/cancel request, is carried out on the task, with any steps of the others before it.
*/
module A2ARun {
  import opened A2ATask
  import opened Options

  datatype Actor = TheRunner | ACancel(pid: nat)

  function ActorOf(e: Event): Actor {
    match e
    case RunnerStarts => TheRunner
    case RunnerMarksWorking => TheRunner
    case ExecReturns(_) => TheRunner
    case RunnerChecks => TheRunner
    case RunnerLocks => TheRunner
    case RunnerMarks => TheRunner
    case CancelArrives(pid) => ACancel(pid)
    case CancelLooks(pid) => ACancel(pid)
    case CancelStops(pid) => ACancel(pid)
    case CancelLocks(pid) => ACancel(pid)
    case CancelMarks(pid) => ACancel(pid)
  }

  /** Where the actor is in both states is the same. */
  predicate StaysPut(me: Actor, s: State, t: State) {
    match me
    case TheRunner => s.runner == t.runner
    case ACancel(pid) => pid in s.cancelers && pid in t.cancelers && s.cancelers[pid] == t.cancelers[pid]
  }

  /** A terminal state, once reached, and its result are kept, and so is its text unless a runner is still to end it. */
  predicate Keeps(s: State, t: State) {
    && (IsTerminal(s.task.state) ==> t.task.state == s.task.state && t.task.result == s.task.result)
    && (s.runner.Marking? || s.runner.Gone? || s.task.state.Canceled? ==> t.task.errMsg == s.task.errMsg)
    && (s.runner.Marking? ==> t.runner.Marking? || t.runner.Gone?) && (s.runner.Gone? ==> t.runner.Gone?)
  }

  lemma KeepsOne(s: State, e: Event)
    requires Inv(s) && Enabled(s, e)
    ensures Keeps(s, Apply(s, e))
  {
  }

  lemma OthersStay(me: Actor, s: State, e: Event)
    requires Enabled(s, e) && ActorOf(e) != me && StaysPut(me, s, s)
    ensures StaysPut(me, s, Apply(s, e))
  {
  }

  class Server {
    const task: Task
    var runner: Runner
    var cancelers: map<nat, Canceler>
    ghost var trace: seq<Event>

    function Here(): State
      reads this, task
    {
      State(task.Now(), runner, cancelers)
    }

    /** The task is in a state that the steps taken so far lead to. */
    ghost predicate Valid()
      reads this, task
    {
      Reaches(START, trace, Here()) && Inv(Here())
    }

    constructor ()
      ensures Valid() && Here() == START && trace == [] && fresh(task)
    {
      task := new Task();
      runner, cancelers, trace := Starting, map[], [];
    }

    /** One step, carried out on the task. */
    method Take(e: Event)
      requires Valid() && Enabled(Here(), e)
      modifies this, task
      ensures Valid() && Here() == Apply(old(Here()), e) && trace == old(trace) + [e]
      ensures Keeps(old(Here()), Here())
    {
      Snoc(START, trace, Here(), e);
      RunKeeps(START, trace + [e], Apply(Here(), e));
      KeepsOne(Here(), e);
      hide Reaches, Inv;
      match e {
        case RunnerStarts =>
          var terminal := task.SetStateLocked(Working, "");
          runner := if terminal then MarkingWorking else Executing;
        case RunnerMarksWorking =>
          task.MarkDoneOnce();
          runner := Executing;
        case ExecReturns(outcome) => runner := Ended(outcome);
        case RunnerChecks => runner := Checked(runner.outcome, task.ctxDone);
        case RunnerLocks =>
          Conclude(runner.outcome, runner.stopped);
          runner := Marking;
        case RunnerMarks =>
          task.MarkDoneOnce();
          runner := Gone;
        case CancelArrives(pid) => cancelers := cancelers[pid := Looking];
        case CancelLooks(pid) =>
          cancelers := cancelers[pid := if IsTerminal(task.state) then Answered(true) else Deciding];
        case CancelStops(pid) =>
          task.CancelContext();
          cancelers := cancelers[pid := Locking];
        case CancelLocks(pid) =>
          task.CancelTask();
          cancelers := cancelers[pid := MarkingCancel];
        case CancelMarks(pid) =>
          task.MarkDoneOnce();
          cancelers := cancelers[pid := Answered(false)];
      }
      trace := trace + [e];
    }

    method Conclude(outcome: Outcome, stopped: bool)
      modifies task
      ensures task.Now() == A2ATask.Conclude(old(task.Now()), outcome, stopped)
    {
      match outcome {
        case NoDir(msg) => task.FinishLocked(None, "run dir: " + msg);
        case RunError(msg) =>
          if stopped { var terminal := task.SetStateLocked(Canceled, msg); } else { task.FinishLocked(None, msg); }
        case RunOk(result) => task.FinishLocked(Some(result), "");
      }
    }

    /** Any steps of the others. */
    method Others(me: Actor)
      requires Valid() && StaysPut(me, Here(), Here())
      modifies this, task
      ensures Valid() && StaysPut(me, old(Here()), Here()) && Keeps(old(Here()), Here()) && old(trace) <= trace
    {
      hide Reaches, Inv;
      var steps: nat := *;
      while steps > 0
        invariant Valid() && StaysPut(me, old(Here()), Here()) && Keeps(old(Here()), Here()) && old(trace) <= trace
      {
        var e: Event := *;
        if Enabled(Here(), e) && ActorOf(e) != me {
          OthersStay(me, Here(), e);
          Take(e);
        }
        steps := steps - 1;
      }
    }

    /** The others move, up to at, and then the actor takes its step. */
    method Step(e: Event) returns (ghost at: State)
      requires Valid() && StaysPut(ActorOf(e), Here(), Here())
      requires forall s :: StaysPut(ActorOf(e), Here(), s) ==> Enabled(s, e)
      modifies this, task
      ensures Valid() && Keeps(old(Here()), Here())
      ensures StaysPut(ActorOf(e), old(Here()), at) && Enabled(at, e) && Inv(at) && Here() == Apply(at, e)
      ensures Along(trace, at) && Keeps(at, Here()) && old(trace) <= trace
    {
      hide Reaches, Inv;
      Others(ActorOf(e));
      at := Here();
      IsAlong(trace, trace + [e], at);
      Take(e);
    }

    /**
     runTask: in the end the task is as the run's outcome says, unless it was canceled before the
     runner locked it (at) or, for an error, its context was done when the runner looked (checked).
    */
    method RunTask(outcome: Outcome) returns (ghost checked: State, ghost at: State)
      requires Valid() && runner.Starting?
      modifies this, task
      ensures Valid() && runner.Gone? && task.closes == 1 && old(trace) <= trace
      ensures Along(trace, checked) && Along(trace, at)
      ensures EndedAs(task.Now(), outcome, checked.task.ctxDone, at.task)
      ensures !IsAsked(trace) ==> EndedUncanceled(task.Now(), outcome)
    {
      hide Reaches, Inv, EndedAs, Keeps, A2ATask.Conclude, Enabled, Along, IsAsked, EndedUncanceled;
      checked := Begin(outcome);
      ghost var tr := trace;
      CanLock();
      at := Step(RunnerLocks);
      ghost var tr1 := trace;
      ConcludeGives(at);
      ghost var ended := Here();
      CanMark();
      ghost var last := Step(RunnerMarks);
      StillEnded(ended, Here(), outcome, checked.task.ctxDone, at.task);
      GoneIsDone(Here());
      StillAlong(tr, trace, checked);
      StillAlong(tr1, trace, at);
      if !IsAsked(trace) { UncanceledEnds(task.Now(), outcome, checked, at, trace); }
    }

    /** Up to the lock that ends the task. */
    method Begin(outcome: Outcome) returns (ghost checked: State)
      requires Valid() && runner.Starting?
      modifies this, task
      ensures Valid() && runner == Checked(outcome, checked.task.ctxDone) && Along(trace, checked)
          && old(trace) <= trace
    {
      hide Reaches, Inv, SetState, MarkDone, Keeps, Along;
      ghost var at := Step(RunnerStarts);
      if runner.MarkingWorking? { at := Step(RunnerMarksWorking); }
      at := Step(ExecReturns(outcome));
      checked := Step(RunnerChecks);
    }

    lemma CanLock()
      ensures forall s: State :: s.runner.Checked? ==> Enabled(s, RunnerLocks)
    {
    }

    lemma CanMark()
      ensures forall s: State :: s.runner.Marking? ==> Enabled(s, RunnerMarks)
    {
    }

    /**
     tasks/cancel: refused exactly for a task that is terminal when it looks (look). Otherwise the task
     is canceled unless it ended before it was locked (at), and done is closed by the answer.
    */
    method Cancel(pid: nat) returns (refused: bool, ghost look: State, ghost at: State)
      requires Valid() && pid !in cancelers
      modifies this, task
      ensures Valid() && pid in cancelers && cancelers[pid] == Answered(refused) && old(trace) <= trace
      ensures IsTerminal(task.state) && Along(trace, look) && (refused <==> IsTerminal(look.task.state))
      ensures !refused ==> task.closes == 1 && Along(trace, at)
      ensures !refused ==> task.state == if IsTerminal(at.task.state) then at.task.state else Canceled
    {
      hide Reaches, Inv, MarkDone, SetState, Finish, CancelLocked, A2ATask.Conclude, Along;
      Take(CancelArrives(pid));
      look := Step(CancelLooks(pid));
      at := look;
      if cancelers[pid].Answered? { return true, look, at; }
      ghost var tr := trace;
      at := Stop(pid);
      refused := false;
      StillAlong(tr, trace, look);
    }

    /** What follows once a cancel is not refused. */
    method Stop(pid: nat) returns (ghost at: State)
      requires Valid() && pid in cancelers && cancelers[pid].Deciding?
      modifies this, task
      ensures Valid() && pid in cancelers && cancelers[pid] == Answered(false) && old(trace) <= trace
      ensures task.closes == 1 && Along(trace, at) && IsTerminal(task.state)
      ensures task.state == if IsTerminal(at.task.state) then at.task.state else Canceled
    {
      hide Reaches, Inv, MarkDone, SetState, Finish, A2ATask.Conclude, Along;
      ghost var s := Step(CancelStops(pid));
      at := Step(CancelLocks(pid));
      ghost var tr := trace;
      hide CancelLocked, Apply;
      MarkFollows(Here(), pid);
      s := Step(CancelMarks(pid));
      MarkAnswers(s, pid);
      AnsweredIsDone(Here(), pid);
      StillAlong(tr, trace, at);
    }
  }

  lemma MarkFollows(s: State, pid: nat)
    requires pid in s.cancelers && s.cancelers[pid].MarkingCancel?
    ensures forall t :: StaysPut(ACancel(pid), s, t) ==> Enabled(t, CancelMarks(pid))
  {
  }

  lemma MarkAnswers(s: State, pid: nat)
    requires Enabled(s, CancelMarks(pid))
    ensures var t := Apply(s, CancelMarks(pid)); pid in t.cancelers && t.cancelers[pid] == Answered(false)
  {
  }

  /** The state the task and its goroutines were in after some of the steps of the trace. */
  ghost predicate Along(tr: seq<Event>, s: State) { exists n :: 0 <= n <= |tr| && Reaches(START, tr[..n], s) }

  lemma IsAlong(a: seq<Event>, b: seq<Event>, s: State)
    requires a <= b && Reaches(START, a, s)
    ensures Along(b, s)
  {
    assert b[..|a|] == a;
  }

  lemma StillAlong(a: seq<Event>, b: seq<Event>, s: State)
    requires a <= b && Along(a, s)
    ensures Along(b, s)
  {
    var n :| 0 <= n <= |a| && Reaches(START, a[..n], s);
    assert b[..n] == a[..n];
  }

  /**
   How the runner leaves the task: canceled as it was before (v), or by the outcome. An error counts
   as a cancellation if the context was done, else it fails the task; but one without a text
   completes it, with no result.
  */
  predicate EndedAs(now: View, outcome: Outcome, stopped: bool, v: View) {
    if v.state == Canceled then now.state == Canceled && now.result == None && now.errMsg == v.errMsg
    else match outcome
      case NoDir(msg) => now.state == Failed && now.result == None && now.errMsg == "run dir: " + msg
      case RunError(msg) =>
        && now.result == None && now.errMsg == msg
        && now.state == (if stopped then Canceled else if msg != "" then Failed else Completed)
      case RunOk(result) => now.state == Completed && now.result == Some(result) && now.errMsg == ""
  }

  lemma ConcludeGives(s: State)
    requires Inv(s) && s.runner.Checked?
    ensures var t := Apply(s, RunnerLocks);
      && IsTerminal(t.task.state) && t.runner.Marking?
      && EndedAs(t.task, s.runner.outcome, s.runner.stopped, s.task)
  {
  }

  lemma StillEnded(s: State, t: State, outcome: Outcome, stopped: bool, v: View)
    requires IsTerminal(s.task.state) && s.runner.Marking? && EndedAs(s.task, outcome, stopped, v) && Keeps(s, t)
    ensures EndedAs(t.task, outcome, stopped, v)
  {
  }

  /** How it leaves a task that nobody cancels. */
  predicate EndedUncanceled(now: View, outcome: Outcome) {
    match outcome
    case NoDir(msg) => now.state == Failed && now.result == None && now.errMsg == "run dir: " + msg
    case RunError(msg) =>
      now.state == (if msg != "" then Failed else Completed) && now.result == None && now.errMsg == msg
    case RunOk(result) => now.state == Completed && now.result == Some(result) && now.errMsg == ""
  }

  lemma UncanceledEnds(now: View, outcome: Outcome, checked: State, at: State, tr: seq<Event>)
    requires Along(tr, checked) && Along(tr, at) && !IsAsked(tr)
    requires EndedAs(now, outcome, checked.task.ctxDone, at.task)
    ensures EndedUncanceled(now, outcome)
  {
    NotAskedYet(tr, checked);
    NotAskedYet(tr, at);
  }

  lemma NotAskedYet(tr: seq<Event>, s: State)
    requires Along(tr, s) && !IsAsked(tr)
    ensures !s.task.ctxDone && !s.task.state.Canceled?
  {
    var n :| 0 <= n <= |tr| && Reaches(START, tr[..n], s);
    assert forall i :: 0 <= i < n ==> tr[..n][i] == tr[i];
    UnaskedRun(START, tr[..n], s);
  }

  lemma GoneIsDone(s: State)
    requires Inv(s) && s.runner.Gone?
    ensures s.task.closes == 1
  {
  }

  lemma AnsweredIsDone(s: State, pid: nat)
    requires Inv(s) && pid in s.cancelers && s.cancelers[pid] == Answered(false)
    ensures s.task.closes == 1 && IsTerminal(s.task.state)
  {
  }
}
