/**
 The interpreter's control flow as the runtime runs it (internal/engine/interpreter/exec.go): loops
 that write the step's environment. Each method does what the recursive functions of Interp say, so
 what is proved of those holds of the run.
*/
module InterpRun {
  import opened Interp
  import opened Options

  class StepRun {
    const c: Ctx
    var w: World
    ghost var n: nat   // statements executed so far

    constructor (c: Ctx, w: World)
      ensures this.c == c && this.w == w && n == 0
    {
      this.c, this.w, n := c, w, 0;
    }

    /** Evaluates x in the current world. */
    method Evaluate(x: Expr) returns (r: Result)
      modifies this`w
      ensures (r, w) == c.eval(x, old(w))
    {
      var (v, next) := c.eval(x, w);
      w := next;
      r := v;
    }

    method Block(stmts: seq<Stmt>) returns (out: Outcome)
      modifies this
      ensures var r := ExecBlock(c, stmts, old(w)); out == r.out && w == r.w && n == old(n) + r.n
      decreases stmts, 0
    {
      for k := 0 to |stmts|
        invariant n >= old(n) && Then(n - old(n), ExecBlock(c, stmts[k..], w)) == ExecBlock(c, stmts, old(w))
      {
        assert stmts[k..][0] == stmts[k] && stmts[k..][1..] == stmts[k + 1..];
        out := Statement(stmts[k]);
        if out.Raised? { return; }
      }
      out := Done;
    }

    method Statement(s: Stmt) returns (out: Outcome)
      modifies this
      ensures var r := ExecStatement(c, s, old(w)); out == r.out && w == r.w && n == old(n) + r.n
      decreases s, 2
    {
      out := Body(s);
      n := n + 1;
      if out.Done? || IsControlSignal(out.err) || FindPosition(out.err).Some? { return; }
      out := Raised(At(s.pos, out.err));
    }

    method Body(s: Stmt) returns (out: Outcome)
      modifies this
      ensures var r := ExecStatementBody(c, s, old(w)); out == r.out && w == r.w && n == old(n) + r.n
      decreases s, 1
    {
      match s {
        case If(_, _, _, _) => out := Conditional(s);
        case While(_, cond, body) => out := Loop(cond, body);
        case ForIn(_, _, _, _) => out := Each(s);
        case Try(_, _, _, _, _) => out := Guarded(s);
        case _ => out := Simple(s);
      }
    }

    method Arms(subject: Value, arms: seq<Arm>) returns (out: Outcome)
      modifies this
      ensures var r := ExecGotoArms(c, subject, arms, old(w)); out == r.out && w == r.w && n == old(n) + r.n
    {
      for k := 0 to |arms|
        invariant n == old(n) && ExecGotoArms(c, subject, arms[k..], w) == ExecGotoArms(c, subject, arms, old(w))
      {
        assert arms[k..][0] == arms[k] && arms[k..][1..] == arms[k + 1..];
        var arm := arms[k];
        if arm.pattern.Some? {
          var pattern := Evaluate(arm.pattern.value);
          if pattern.Err? { return Raised(pattern.err); }
          if pattern.value != subject { continue; }
        }
        if arm.fail.Some? {
          var reason := Evaluate(arm.fail.value);
          if reason.Err? { return Raised(reason.err); }
          return Raised(Plain(c.show(reason.value)));
        }
        return Raised(Sig(GotoSignal(arm.target)));
      }
      out := Raised(Plain("goto match: no arm matched value " + c.show(subject)));
    }

    /** The arguments are bound in a copy of the environment, which the arms then see. */
    method CallRoute(s: Stmt) returns (out: Outcome)
      requires s.Goto?
      modifies this
      ensures var r := ExecGotoRoute(c, s, old(w)); out == r.out && w == r.w && n == old(n) + r.n
    {
      if s.target !in c.routes { return Raised(Plain("workflow route not found")); }
      var route := c.routes[s.target];
      if |s.args| != |route.params| { return Raised(Plain("route " + route.name + " expects other arguments")); }
      var env := w.env;
      for k := 0 to |s.args|
        invariant n == old(n)
        invariant BindArgs(c, route, s.args, k, w, env) == BindArgs(c, route, s.args, 0, old(w), old(w).env)
      {
        if s.args[k].name != "" { return Raised(Plain("route " + route.name + " arguments are positional")); }
        var v := Evaluate(s.args[k].value);
        if v.Err? { return Raised(v.err); }
        env := env[route.params[k] := v.value];
      }
      if |route.params| != 1 || route.params[0] !in env {
        return Raised(Plain("route " + route.name + " must declare exactly one match parameter"));
      }
      var own := w.env;
      w := w.(env := env);
      out := Arms(env[route.params[0]], route.arms);
      w := w.(env := own);
    }

    /** The statements without a nested block. */
    method Simple(s: Stmt) returns (out: Outcome)
      requires !s.If? && !s.While? && !s.ForIn? && !s.Try?
      modifies this
      ensures var r := ExecStatementBody(c, s, old(w)); out == r.out && w == r.w && n == old(n) + r.n
    {
      match s {
        case Goto(_, target, called, _) =>
          if called { out := CallRoute(s); } else { out := Raised(Sig(GotoSignal(target))); }
        case GotoMatch(_, subject, arms) =>
          var v := Evaluate(subject);
          if v.Err? { return Raised(v.err); }
          out := Arms(v.value, arms);
        case Const(_, name, value) =>
          var v := Evaluate(value);
          if v.Err? { return Raised(v.err); }
          w := Bind(w, name, v.value).(consts := w.consts + {name});
          out := Done;
        case Var(_, name, value) =>
          if name in w.consts { return Raised(Plain(name + " is already declared as a constant")); }
          var v := Evaluate(value);
          if v.Err? { return Raised(v.err); }
          w := Bind(w, name, v.value);
          out := Done;
        case Act(_, act) =>
          var v := Evaluate(act);
          out := if v.Err? then Raised(v.err) else Done;
        case Return(_, result) =>
          if result.None? { return Raised(Sig(ReturnSignal(Nil))); }
          var v := Evaluate(result.value);
          out := Raised(if v.Err? then v.err else Sig(ReturnSignal(v.value)));
        case Break(_, reason) =>
          if reason.None? { return Raised(Sig(BreakSignal(Nil))); }
          var v := Evaluate(reason.value);
          out := Raised(if v.Err? then v.err else Sig(BreakSignal(v.value)));
      }
    }

    method Conditional(s: Stmt) returns (out: Outcome)
      requires s.If?
      modifies this
      ensures var r := ExecStatementBody(c, s, old(w)); out == r.out && w == r.w && n == old(n) + r.n
      decreases s, 0
    {
      var v := Evaluate(s.cond);
      if v.Err? { return Raised(v.err); }
      if !v.value.Bool? { return Raised(Plain("if condition must be a bool")); }
      if v.value.b { out := Block(s.yes); } else { out := Block(s.no); }
    }

    method Loop(cond: Expr, body: seq<Stmt>) returns (out: Outcome)
      modifies this
      ensures var r := ExecWhile(c, cond, body, 0, old(w)); out == r.out && w == r.w && n == old(n) + r.n
      decreases body, 1
    {
      var i := 0;
      while true
        invariant 0 <= i <= MAX_LOOP_ITERATIONS
        invariant n >= old(n) && Then(n - old(n), ExecWhile(c, cond, body, i, w)) == ExecWhile(c, cond, body, 0, old(w))
        decreases MAX_LOOP_ITERATIONS - i
      {
        if i >= MAX_LOOP_ITERATIONS { return Raised(Plain("while loop exceeded the maximum of iterations")); }
        var v := Evaluate(cond);
        if v.Err? { return Raised(v.err); }
        if !v.value.Bool? { return Raised(Plain("while condition must be a bool")); }
        if !v.value.b { return Done; }
        out := Block(body);
        if out.Raised? { return; }
        i := i + 1;
      }
    }

    method Each(s: Stmt) returns (out: Outcome)
      requires s.ForIn?
      modifies this
      ensures var r := ExecStatementBody(c, s, old(w)); out == r.out && w == r.w && n == old(n) + r.n
      decreases s, 0
    {
      var before := w;
      var v := Evaluate(s.iterable);
      if v.Err? { return Raised(v.err); }
      if !v.value.List? { return Raised(Plain("for-in requires an array")); }
      if |v.value.items| > MAX_LOOP_ITERATIONS { return Raised(Plain("for-in exceeded the maximum of iterations")); }
      var items := Cells(c, s.iterable, before, |v.value.items|);
      ghost var start := w;
      for k := 0 to |items|
        invariant n >= old(n)
        invariant Then(n - old(n), ExecForIn(c, s.name, items[k..], s.body, w)) ==
            ExecForIn(c, s.name, items, s.body, start)
      {
        assert items[k..][0] == items[k] && items[k..][1..] == items[k + 1..];
        w := Bind(w, s.name, items[k](w));
        out := Block(s.body);
        if out.Raised? { return; }
      }
      out := Done;
    }

    method Guarded(s: Stmt) returns (out: Outcome)
      requires s.Try?
      modifies this
      ensures var r := ExecStatementBody(c, s, old(w)); out == r.out && w == r.w && n == old(n) + r.n
      decreases s, 0
    {
      out := Block(s.body);
      if out.Raised? && !IsControlSignal(out.err) {
        if s.errName != "" { w := Bind(w, s.errName, Text(ErrorMessage(out.err))); }
        out := Block(s.handler);
      }
      if |s.last| > 0 {
        var last := Block(s.last);
        if last.Raised? { return last; }
      }
    }
  }
}
