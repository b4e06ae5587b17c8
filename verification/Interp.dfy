/**
 Statement execution in the interpreter (internal/engine/interpreter/exec.go and match.go).
 Expressions are an arbitrary evaluator over the environment and the rest of the world; spawn, wait,
 assignment and expression statements act through it too.
*/
module Interp {
  import opened Options

  const MAX_LOOP_ITERATIONS := 10_000

  // ------------------------------------------------------------ programs

  /** "file:line:column". */
  type Pos = string

  datatype Expr = Expr(id: int)

  datatype Value = Nil | Bool(b: bool) | List(items: seq<Value>) | Text(text: string) | Other(id: int)

  /** No pattern is the wildcard; an arm fails with a reason or goes to its target. */
  datatype Arm = Arm(pattern: Option<Expr>, fail: Option<Expr>, target: string)

  datatype Route = Route(name: string, params: seq<string>, arms: seq<Arm>)

  datatype Arg = Arg(name: string, value: Expr)

  datatype Stmt =
    | Const(pos: Pos, name: string, value: Expr)
    | Var(pos: Pos, name: string, value: Expr)
    | Return(pos: Pos, result: Option<Expr>)
    | Break(pos: Pos, reason: Option<Expr>)
    | Goto(pos: Pos, target: string, called: bool, args: seq<Arg>)
    | GotoMatch(pos: Pos, subject: Expr, arms: seq<Arm>)
    | Act(pos: Pos, act: Expr)
    | If(pos: Pos, cond: Expr, yes: seq<Stmt>, no: seq<Stmt>)
    | While(pos: Pos, cond: Expr, body: seq<Stmt>)
    | ForIn(pos: Pos, name: string, iterable: Expr, body: seq<Stmt>)
    | Try(pos: Pos, body: seq<Stmt>, errName: string, handler: seq<Stmt>, last: seq<Stmt>)

  // ------------------------------------------------------------ errors

  datatype Signal =
    | ReturnSignal(value: Value)
    | BreakSignal(reason: Value)
    | GotoSignal(target: string)
    | PauseSignal(reason: Value)
    | CompleteSignal

  /** An error chain, as errors.As walks it. */
  datatype Err =
    | Plain(msg: string)
    | Wrapped(msg: string, inner: Err)
    | At(pos: Pos, inner: Err)
    | Sig(signal: Signal)

  function FindSignal(e: Err): Option<Signal> {
    match e
    case Plain(_) => None
    case Wrapped(_, inner) => FindSignal(inner)
    case At(_, inner) => FindSignal(inner)
    case Sig(s) => Some(s)
  }

  predicate IsControlSignal(e: Err) { FindSignal(e).Some? }

  /** The first position in the chain, with the error it stands on. */
  function FindPosition(e: Err): Option<Err> {
    match e
    case Plain(_) => None
    case Wrapped(_, inner) => FindPosition(inner)
    case At(_, inner) => Some(inner)
    case Sig(_) => None
  }

  function Positions(e: Err): nat {
    match e
    case Plain(_) => 0
    case Wrapped(_, inner) => Positions(inner)
    case At(_, inner) => 1 + Positions(inner)
    case Sig(_) => 0
  }

  function Render(e: Err): string {
    match e
    case Plain(msg) => msg
    case Wrapped(msg, inner) => msg + Render(inner)
    case At(pos, inner) => pos + ": " + Render(inner)
    case Sig(GotoSignal(t)) => "goto " + t
    case Sig(ReturnSignal(_)) => "return"
    case Sig(BreakSignal(_)) => "break"
    case Sig(PauseSignal(_)) => "pause"
    case Sig(CompleteSignal) => "complete"
  }

  /** What catch binds: the text without its position. */
  function ErrorMessage(e: Err): string {
    if FindPosition(e).Some? then Render(FindPosition(e).value) else Render(e)
  }

  // ------------------------------------------------------------ the world

  /** The step's variables, which of them are constants, and everything else expressions can reach. */
  datatype World = World(env: map<string, Value>, consts: set<string>, rest: int)

  datatype Result = Ok(value: Value) | Err(err: Err)

  type Eval = (Expr, World) -> (Result, World)

  /** What element k of the array that x evaluated to in one world holds in a later one: a body may overwrite it. */
  type Item = (Expr, World, nat, World) -> Value

  /** What a step runs with: the evaluator, arrays, how a value reads in a message, and the routes it finds. */
  datatype Ctx = Ctx(eval: Eval, item: Item, show: Value -> string, routes: map<string, Route>)

  datatype Outcome = Done | Raised(err: Err)

  /** How a piece of code ended, the world it left, and how many statements it executed. */
  datatype Ran = Ran(out: Outcome, w: World, n: nat)

  function Fail(msg: string, w: World): Ran { Ran(Raised(Plain(msg)), w, 0) }

  function Bind(w: World, name: string, v: Value): World { w.(env := w.env[name := v]) }

  // ------------------------------------------------------------ gotos

  function ExecGotoArms(c: Ctx, subject: Value, arms: seq<Arm>, w: World): Ran
    decreases |arms|
  {
    if arms == [] then Fail("goto match: no arm matched value " + c.show(subject), w)
    else
      var arm := arms[0];
      var (pattern, w1) := if arm.pattern.None? then (Ok(subject), w) else c.eval(arm.pattern.value, w);
      if pattern.Err? then Ran(Raised(pattern.err), w1, 0)
      else if pattern.value != subject then ExecGotoArms(c, subject, arms[1..], w1)
      else if arm.fail.Some? then
        var (reason, w2) := c.eval(arm.fail.value, w1);
        if reason.Err? then Ran(Raised(reason.err), w2, 0) else Fail(c.show(reason.value), w2)
      else Ran(Raised(Sig(GotoSignal(arm.target))), w1, 0)
  }

  /** Binds the route's parameters, one argument after the other, in a copy of the environment. */
  function BindArgs(c: Ctx, route: Route, args: seq<Arg>, k: nat, w: World,
      env: map<string, Value>): (Outcome, World, map<string, Value>)
    requires k <= |args| == |route.params|
    decreases |args| - k
  {
    if k == |args| then (Done, w, env)
    else if args[k].name != "" then (Raised(Plain("route " + route.name + " arguments are positional")), w, env)
    else
      var (v, w1) := c.eval(args[k].value, w);
      if v.Err? then (Raised(v.err), w1, env)
      else BindArgs(c, route, args, k + 1, w1, env[route.params[k] := v.value])
  }

  function ExecGotoRoute(c: Ctx, s: Stmt, w: World): Ran
    requires s.Goto?
  {
    if s.target !in c.routes then Fail("workflow route not found", w)
    else
      var route := c.routes[s.target];
      if |s.args| != |route.params| then Fail("route " + route.name + " expects other arguments", w)
      else
        var (out, w1, env) := BindArgs(c, route, s.args, 0, w, w.env);
        if out.Raised? then Ran(out, w1, 0)
        else if |route.params| != 1 || route.params[0] !in env
        then Fail("route " + route.name + " must declare exactly one match parameter", w1)
        else
          var r := ExecGotoArms(c, env[route.params[0]], route.arms, w1.(env := env));
          r.(w := r.w.(env := w1.env))
  }

  // ------------------------------------------------------------ statements

  /** Positions an error unless it is a control signal or has a position already. */
  function Wrap(pos: Pos, out: Outcome): Outcome {
    if out.Done? || IsControlSignal(out.err) || FindPosition(out.err).Some? then out else Raised(At(pos, out.err))
  }

  function ExecBlock(c: Ctx, stmts: seq<Stmt>, w: World): Ran
    decreases stmts, 0, 0
  {
    if stmts == [] then Ran(Done, w, 0)
    else
      var r := ExecStatement(c, stmts[0], w);
      if r.out.Raised? then r else Then(r.n, ExecBlock(c, stmts[1..], r.w))
  }

  /** r after n more statements. */
  function Then(n: nat, r: Ran): Ran { r.(n := n + r.n) }

  function ExecStatement(c: Ctx, s: Stmt, w: World): Ran
    decreases s, 2, 0
  {
    var r := ExecStatementBody(c, s, w);
    Ran(Wrap(s.pos, r.out), r.w, r.n + 1)
  }

  /** Evaluates an optional expression and unwinds with the signal it makes. */
  function ExecSignal(c: Ctx, e: Option<Expr>, signal: Value -> Signal, w: World): Ran {
    if e.None? then Ran(Raised(Sig(signal(Nil))), w, 0)
    else
      var (v, w1) := c.eval(e.value, w);
      Ran(Raised(if v.Err? then v.err else Sig(signal(v.value))), w1, 0)
  }

  function ExecStatementBody(c: Ctx, s: Stmt, w: World): Ran
    decreases s, 1, 0
  {
    match s
    case Const(_, name, value) =>
      var (v, w1) := c.eval(value, w);
      if v.Err? then Ran(Raised(v.err), w1, 0)
      else Ran(Done, Bind(w1, name, v.value).(consts := w1.consts + {name}), 0)
    case Var(_, name, value) =>
      if name in w.consts then Fail(name + " is already declared as a constant", w)
      else
        var (v, w1) := c.eval(value, w);
        if v.Err? then Ran(Raised(v.err), w1, 0) else Ran(Done, Bind(w1, name, v.value), 0)
    case Return(_, result) => ExecSignal(c, result, v => ReturnSignal(v), w)
    case Break(_, reason) => ExecSignal(c, reason, v => BreakSignal(v), w)
    case Goto(_, target, called, _) =>
      if called then ExecGotoRoute(c, s, w) else Ran(Raised(Sig(GotoSignal(target))), w, 0)
    case GotoMatch(_, subject, arms) =>
      var (v, w1) := c.eval(subject, w);
      if v.Err? then Ran(Raised(v.err), w1, 0) else ExecGotoArms(c, v.value, arms, w1)
    case Act(_, act) =>
      var (v, w1) := c.eval(act, w);
      Ran(if v.Err? then Raised(v.err) else Done, w1, 0)
    case If(_, cond, yes, no) =>
      var (v, w1) := c.eval(cond, w);
      if v.Err? then Ran(Raised(v.err), w1, 0)
      else if !v.value.Bool? then Fail("if condition must be a bool", w1)
      else if v.value.b then ExecBlock(c, yes, w1) else ExecBlock(c, no, w1)
    case While(_, cond, body) => ExecWhile(c, cond, body, 0, w)
    case ForIn(_, name, iterable, body) =>
      var (v, w1) := c.eval(iterable, w);
      if v.Err? then Ran(Raised(v.err), w1, 0)
      else if !v.value.List? then Fail("for-in requires an array", w1)
      else if |v.value.items| > MAX_LOOP_ITERATIONS then Fail("for-in exceeded the maximum of iterations", w1)
      else ExecForIn(c, name, Cells(c, iterable, w, |v.value.items|), body, w1)
    case Try(_, _, _, _, last) =>
      var r := ExecGuarded(c, s, w);
      var f := ExecBlock(c, last, r.w);
      Ran(if f.out.Raised? then f.out else r.out, f.w, r.n + f.n)
  }

  function ExecWhile(c: Ctx, cond: Expr, body: seq<Stmt>, i: nat, w: World): Ran
    decreases body, 1, MAX_LOOP_ITERATIONS - i
  {
    if i >= MAX_LOOP_ITERATIONS then Fail("while loop exceeded the maximum of iterations", w)
    else
      var (v, w1) := c.eval(cond, w);
      if v.Err? then Ran(Raised(v.err), w1, 0)
      else if !v.value.Bool? then Fail("while condition must be a bool", w1)
      else if !v.value.b then Ran(Done, w1, 0)
      else
        var r := ExecBlock(c, body, w1);
        if r.out.Raised? then r else Then(r.n, ExecWhile(c, cond, body, i + 1, r.w))
  }

  /** An array element, as it is in a given world. */
  type Cell = World -> Value

  /** The elements of the array that x evaluated to in w: how many there are is settled, what they hold is not. */
  function Cells(c: Ctx, x: Expr, w: World, n: nat): (cells: seq<Cell>)
    ensures |cells| == n
  {
    seq(n, k requires k >= 0 => CellAt(c, x, w, k))
  }

  function CellAt(c: Ctx, x: Expr, w: World, k: nat): Cell { u => c.item(x, w, k, u) }

  function ExecForIn(c: Ctx, name: string, items: seq<Cell>, body: seq<Stmt>, w: World): Ran
    decreases body, 1, |items|
  {
    if items == [] then Ran(Done, w, 0)
    else
      var r := ExecBlock(c, body, Bind(w, name, items[0](w)));
      if r.out.Raised? then r else Then(r.n, ExecForIn(c, name, items[1..], body, r.w))
  }

  /** A genuine error enters catch; a control signal passes it by. */
  predicate Caught(out: Outcome) { out.Raised? && !IsControlSignal(out.err) }

  function Catching(errName: string, e: Err, w: World): World {
    if errName == "" then w else Bind(w, errName, Text(ErrorMessage(e)))
  }

  /** A try up to its finally. */
  function ExecGuarded(c: Ctx, s: Stmt, w: World): Ran
    requires s.Try?
    decreases s, 0, 0
  {
    var r := ExecBlock(c, s.body, w);
    if !Caught(r.out) then r else Then(r.n, ExecBlock(c, s.handler, Catching(s.errName, r.out.err, r.w)))
  }

  // ------------------------------------------------------------ where an error comes from

  /** The innermost statement that failed by itself during this run, and its own error. */
  datatype Fault = Fault(pos: Pos, err: Err)

  function FaultOfBlock(c: Ctx, stmts: seq<Stmt>, w: World): Option<Fault>
    decreases stmts, 0, 0
  {
    if stmts == [] then None
    else
      var r := ExecStatement(c, stmts[0], w);
      if r.out.Raised? then FaultOf(c, stmts[0], w) else FaultOfBlock(c, stmts[1..], r.w)
  }

  /** Itself, or one inside it when the failure is one of the nested block that ended the run. */
  function FaultOf(c: Ctx, s: Stmt, w: World): Option<Fault>
    decreases s, 1, 0
  {
    var r := ExecStatementBody(c, s, w);
    if r.out.Done? || IsControlSignal(r.out.err) then None
    else
      var own := Some(Fault(s.pos, r.out.err));
      match s
      case If(_, cond, yes, no) =>
        var (v, w1) := c.eval(cond, w);
        if v.Ok? && v.value.Bool? then FaultOfBlock(c, if v.value.b then yes else no, w1) else own
      case While(_, cond, body) => FaultOfWhile(c, s, 0, w)
      case ForIn(_, name, iterable, body) =>
        var (v, w1) := c.eval(iterable, w);
        if v.Ok? && v.value.List? && |v.value.items| <= MAX_LOOP_ITERATIONS
        then FaultOfForIn(c, name, Cells(c, iterable, w, |v.value.items|), body, w1) else own
      case Try(_, body, errName, handler, last) =>
        var g := ExecGuarded(c, s, w);
        var b := ExecBlock(c, body, w);
        if ExecBlock(c, last, g.w).out.Raised? then FaultOfBlock(c, last, g.w)
        else if Caught(b.out) then FaultOfBlock(c, handler, Catching(errName, b.out.err, b.w))
        else FaultOfBlock(c, body, w)
      case _ => own
  }

  function FaultOfWhile(c: Ctx, s: Stmt, i: nat, w: World): Option<Fault>
    requires s.While?
    decreases s, 0, MAX_LOOP_ITERATIONS - i
  {
    if i >= MAX_LOOP_ITERATIONS then Some(Fault(s.pos, Plain("while loop exceeded the maximum of iterations")))
    else
      var (v, w1) := c.eval(s.cond, w);
      if v.Err? then (if IsControlSignal(v.err) then None else Some(Fault(s.pos, v.err)))
      else if !v.value.Bool? then Some(Fault(s.pos, Plain("while condition must be a bool")))
      else if !v.value.b then None
      else
        var r := ExecBlock(c, s.body, w1);
        if r.out.Raised? then FaultOfBlock(c, s.body, w1) else FaultOfWhile(c, s, i + 1, r.w)
  }

  function FaultOfForIn(c: Ctx, name: string, items: seq<Cell>, body: seq<Stmt>, w: World): Option<Fault>
    decreases body, 1, |items|
  {
    if items == [] then None
    else
      var w1 := Bind(w, name, items[0](w));
      var r := ExecBlock(c, body, w1);
      if r.out.Raised? then FaultOfBlock(c, body, w1) else FaultOfForIn(c, name, items[1..], body, r.w)
  }
}
