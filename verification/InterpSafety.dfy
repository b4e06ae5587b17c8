/**
 What statement execution guarantees for every nesting of if, while, for, try, catch and finally:
 where errors are positioned, what catch and finally do, and how many statements can run.
*/
module InterpSafety {
  import opened Interp
  import opened Options

  // ------------------------------------------------------------ a statement's own errors

  ghost predicate FromEval(c: Ctx, e: Err) {
    exists x, w :: c.eval(x, w).0 == Err(e)
  }

  /** A statement fails by itself with a message of the interpreter, or with what an expression raised. */
  ghost predicate Own(c: Ctx, e: Err) { e.Plain? || e.Sig? || FromEval(c, e) }

  ghost predicate OwnOut(c: Ctx, out: Outcome) { out.Done? || Own(c, out.err) }

  lemma Evaluated(c: Ctx, x: Expr, w: World)
    requires c.eval(x, w).0.Err?
    ensures Own(c, c.eval(x, w).0.err)
  {
    assert c.eval(x, w).0 == Err(c.eval(x, w).0.err);
  }

  lemma {:induction false} ArmsOwn(c: Ctx, subject: Value, arms: seq<Arm>, w: World)
    ensures OwnOut(c, ExecGotoArms(c, subject, arms, w).out)
    decreases |arms|
  {
    if arms == [] {
    } else {
      var arm := arms[0];
      var (pattern, w1) := if arm.pattern.None? then (Ok(subject), w) else c.eval(arm.pattern.value, w);
      if pattern.Err? { Evaluated(c, arm.pattern.value, w); }
      else if pattern.value != subject { ArmsOwn(c, subject, arms[1..], w1); }
      else if arm.fail.Some? && c.eval(arm.fail.value, w1).0.Err? { Evaluated(c, arm.fail.value, w1); }
    }
  }

  lemma {:induction false} ArgsOwn(c: Ctx, route: Route, args: seq<Arg>, k: nat, w: World, env: map<string, Value>)
    requires k <= |args| == |route.params|
    ensures OwnOut(c, BindArgs(c, route, args, k, w, env).0)
    decreases |args| - k
  {
    if k == |args| || args[k].name != "" {
    } else {
      var (v, w1) := c.eval(args[k].value, w);
      if v.Err? { Evaluated(c, args[k].value, w); }
      else { ArgsOwn(c, route, args, k + 1, w1, env[route.params[k] := v.value]); }
    }
  }

  lemma RouteOwn(c: Ctx, s: Stmt, w: World)
    requires s.Goto?
    ensures OwnOut(c, ExecGotoRoute(c, s, w).out)
  {
    if s.target in c.routes && |s.args| == |c.routes[s.target].params| {
      var route := c.routes[s.target];
      ArgsOwn(c, route, s.args, 0, w, w.env);
      var (out, w1, env) := BindArgs(c, route, s.args, 0, w, w.env);
      if |route.params| == 1 && route.params[0] in env {
        ArmsOwn(c, env[route.params[0]], route.arms, w1.(env := env));
      }
    }
  }

  predicate Simple(s: Stmt) { !s.If? && !s.While? && !s.ForIn? && !s.Try? }

  lemma SimpleOwn(c: Ctx, s: Stmt, w: World)
    requires Simple(s)
    ensures OwnOut(c, ExecStatementBody(c, s, w).out)
  {
    match s
    case Const(_, _, value) => if c.eval(value, w).0.Err? { Evaluated(c, value, w); }
    case Var(_, _, value) => if c.eval(value, w).0.Err? { Evaluated(c, value, w); }
    case Return(_, e) => if e.Some? && c.eval(e.value, w).0.Err? { Evaluated(c, e.value, w); }
    case Break(_, e) => if e.Some? && c.eval(e.value, w).0.Err? { Evaluated(c, e.value, w); }
    case Goto(_, _, called, _) => if called { RouteOwn(c, s, w); }
    case GotoMatch(_, subject, arms) =>
      var (v, w1) := c.eval(subject, w);
      if v.Err? { Evaluated(c, subject, w); } else { ArmsOwn(c, v.value, arms, w1); }
    case Act(_, act) => if c.eval(act, w).0.Err? { Evaluated(c, act, w); }
  }

  // ------------------------------------------------------------ error positions

  /**
   out is a success or a control signal and nothing failed, or it is the error of the innermost
   failing statement, under that statement's position unless the error came with one.
  */
  ghost predicate Blames(c: Ctx, out: Outcome, fault: Option<Fault>) {
    if out.Done? || IsControlSignal(out.err) then fault.None?
    else fault.Some? && Own(c, fault.value.err) && !IsControlSignal(fault.value.err)
         && out == Wrap(fault.value.pos, Raised(fault.value.err))
  }

  /** Wrapping what is positioned already, or a control signal, changes nothing. */
  lemma WrapOnce(c: Ctx, pos: Pos, out: Outcome, fault: Option<Fault>)
    requires Blames(c, out, fault)
    ensures Wrap(pos, out) == out
  {
  }

  lemma {:induction false} BlockBlames(c: Ctx, stmts: seq<Stmt>, w: World)
    ensures Blames(c, ExecBlock(c, stmts, w).out, FaultOfBlock(c, stmts, w))
    decreases stmts, 0, 0
  {
    if stmts == [] {
    } else {
      StatementBlames(c, stmts[0], w);
      var r := ExecStatement(c, stmts[0], w);
      if r.out.Done? { BlockBlames(c, stmts[1..], r.w); }
    }
  }

  lemma {:induction false} StatementBlames(c: Ctx, s: Stmt, w: World)
    ensures Blames(c, ExecStatement(c, s, w).out, FaultOf(c, s, w))
    decreases s, 2, 0
  {
    match s
    case If(_, _, _, _) => IfBlames(c, s, w);
    case While(_, _, _) => WhileBlames(c, s, 0, w);
    case ForIn(_, _, iterable, _) => ForInBlames(c, s, w);
    case Try(_, _, _, _, _) => TryBlames(c, s, w);
    case _ => SimpleOwn(c, s, w);
  }

  lemma {:induction false} IfBlames(c: Ctx, s: Stmt, w: World)
    requires s.If?
    ensures Blames(c, ExecStatement(c, s, w).out, FaultOf(c, s, w))
    decreases s, 1, 0
  {
    var (v, w1) := c.eval(s.cond, w);
    if v.Err? { Evaluated(c, s.cond, w); }
    else if v.value.Bool? {
      var branch := if v.value.b then s.yes else s.no;
      BlockBlames(c, branch, w1);
      WrapOnce(c, s.pos, ExecBlock(c, branch, w1).out, FaultOfBlock(c, branch, w1));
    }
  }

  lemma {:induction false} WhileBlames(c: Ctx, s: Stmt, i: nat, w: World)
    requires s.While?
    ensures Blames(c, Wrap(s.pos, ExecWhile(c, s.cond, s.body, i, w).out), FaultOfWhile(c, s, i, w))
    decreases s, 0, MAX_LOOP_ITERATIONS - i
  {
    if i >= MAX_LOOP_ITERATIONS {
    } else {
      var (v, w1) := c.eval(s.cond, w);
      if v.Err? { Evaluated(c, s.cond, w); }
      else if v.value.Bool? && v.value.b {
        var r := ExecBlock(c, s.body, w1);
        BlockBlames(c, s.body, w1);
        WrapOnce(c, s.pos, r.out, FaultOfBlock(c, s.body, w1));
        if r.out.Done? { WhileBlames(c, s, i + 1, r.w); }
      }
    }
  }

  lemma {:induction false} ForInBlames(c: Ctx, s: Stmt, w: World)
    requires s.ForIn?
    ensures Blames(c, ExecStatement(c, s, w).out, FaultOf(c, s, w))
    decreases s, 1, 0
  {
    var (v, w1) := c.eval(s.iterable, w);
    if v.Err? { Evaluated(c, s.iterable, w); }
    else if v.value.List? && |v.value.items| <= MAX_LOOP_ITERATIONS {
      var cells := Cells(c, s.iterable, w, |v.value.items|);
      ItemsBlame(c, s.name, cells, s.body, w1);
      WrapOnce(c, s.pos, ExecForIn(c, s.name, cells, s.body, w1).out, FaultOfForIn(c, s.name, cells, s.body, w1));
    }
  }

  lemma {:induction false} ItemsBlame(c: Ctx, name: string, items: seq<Cell>, body: seq<Stmt>, w: World)
    ensures Blames(c, ExecForIn(c, name, items, body, w).out, FaultOfForIn(c, name, items, body, w))
    decreases body, 1, |items|
  {
    if items == [] {
    } else {
      var w1 := Bind(w, name, items[0](w));
      BlockBlames(c, body, w1);
      var r := ExecBlock(c, body, w1);
      if r.out.Done? { ItemsBlame(c, name, items[1..], body, r.w); }
    }
  }

  lemma {:induction false} TryBlames(c: Ctx, s: Stmt, w: World)
    requires s.Try?
    ensures Blames(c, ExecStatement(c, s, w).out, FaultOf(c, s, w))
    decreases s, 1, 0
  {
    var b := ExecBlock(c, s.body, w);
    var g := ExecGuarded(c, s, w);
    BlockBlames(c, s.body, w);
    WrapOnce(c, s.pos, b.out, FaultOfBlock(c, s.body, w));
    if Caught(b.out) {
      var w1 := Catching(s.errName, b.out.err, b.w);
      BlockBlames(c, s.handler, w1);
      WrapOnce(c, s.pos, ExecBlock(c, s.handler, w1).out, FaultOfBlock(c, s.handler, w1));
    }
    BlockBlames(c, s.last, g.w);
    WrapOnce(c, s.pos, ExecBlock(c, s.last, g.w).out, FaultOfBlock(c, s.last, g.w));
  }

  /** Expressions, with the closures and tools they call, raise errors with at most this many positions. */
  ghost predicate RaisesAtMost(c: Ctx, n: nat) {
    forall x, w :: c.eval(x, w).0.Err? ==> Positions(c.eval(x, w).0.err) <= n
  }

  lemma {:induction false} NoPosition(e: Err)
    ensures FindPosition(e).None? <==> Positions(e) == 0
  {
    if !e.Wrapped? {
    } else {
      NoPosition(e.inner);
    }
  }

  /**
   A block ends in success, in a control signal, or in an error positioned exactly once. When
   expressions raise plain errors the position is that of the innermost failing statement.
  */
  lemma PositionedOnce(c: Ctx, stmts: seq<Stmt>, w: World)
    requires RaisesAtMost(c, 1)
    ensures var out, fault := ExecBlock(c, stmts, w).out, FaultOfBlock(c, stmts, w);
      || out.Done? || IsControlSignal(out.err)
      || (Positions(out.err) == 1 && fault.Some?
          && (RaisesAtMost(c, 0) ==> out.err == At(fault.value.pos, fault.value.err)))
  {
    hide ExecBlock, FaultOfBlock;
    BlockBlames(c, stmts, w);
    var fault := FaultOfBlock(c, stmts, w);
    if fault.Some? {
      var e := fault.value.err;
      NoPosition(e);
      assert Positions(e) <= 1 && (RaisesAtMost(c, 0) ==> Positions(e) == 0) by {
        if FromEval(c, e) {
          var x, w0 :| c.eval(x, w0).0 == Err(e);
        }
      }
    }
  }

  // ------------------------------------------------------------ try

  /** A control signal, like a success, passes the handler by: any other handler gives the same run. */
  lemma ControlSkipsCatch(c: Ctx, s: Stmt, other: seq<Stmt>, w: World)
    requires s.Try? && !Caught(ExecBlock(c, s.body, w).out)
    ensures ExecStatement(c, s, w) == ExecStatement(c, s.(handler := other), w)
  {
    var t := s.(handler := other);
    assert ExecGuarded(c, s, w) == ExecGuarded(c, t, w) == ExecBlock(c, s.body, w);
    assert ExecStatementBody(c, s, w) == ExecStatementBody(c, t, w);
  }

  /**
   Finally runs after every other way out, on the world that way left, and its own outcome
   overrides when it is not success; otherwise the earlier one stands.
  */
  lemma FinallyDecides(c: Ctx, s: Stmt, w: World)
    requires s.Try?
    ensures var bare, whole := ExecStatement(c, s.(last := []), w), ExecStatement(c, s, w);
      var f := ExecBlock(c, s.last, bare.w);
      && whole.w == f.w && whole.n == bare.n + f.n
      && whole.out == if f.out.Raised? then f.out else bare.out
  {
    var t := s.(last := []);
    var g := ExecGuarded(c, s, w);
    assert g == ExecGuarded(c, t, w);
    assert ExecBlock(c, [], g.w) == Ran(Done, g.w, 0);
    assert ExecStatementBody(c, t, w) == Ran(g.out, g.w, g.n + 0);
    var f := ExecBlock(c, s.last, g.w);
    BlockBlames(c, s.last, g.w);
    WrapOnce(c, s.pos, f.out, FaultOfBlock(c, s.last, g.w));
  }

  // ------------------------------------------------------------ how many statements run

  function SizeOf(s: Stmt): nat
    decreases s, 1
  {
    1 + match s
        case If(_, _, yes, no) => Size(yes) + Size(no)
        case While(_, _, body) => Size(body)
        case ForIn(_, _, _, body) => Size(body)
        case Try(_, body, _, handler, last) => Size(body) + Size(handler) + Size(last)
        case _ => 0
  }

  function Size(stmts: seq<Stmt>): nat
    decreases stmts, 0
  {
    if stmts == [] then 0 else SizeOf(stmts[0]) + Size(stmts[1..])
  }

  function Max(a: nat, b: nat): nat { if a < b then b else a }

  /** How deep loops are nested. */
  function LoopDepthOf(s: Stmt): nat
    decreases s, 1
  {
    match s
    case If(_, _, yes, no) => Max(LoopDepth(yes), LoopDepth(no))
    case While(_, _, body) => 1 + LoopDepth(body)
    case ForIn(_, _, _, body) => 1 + LoopDepth(body)
    case Try(_, body, _, handler, last) => Max(LoopDepth(body), Max(LoopDepth(handler), LoopDepth(last)))
    case _ => 0
  }

  function LoopDepth(stmts: seq<Stmt>): nat
    decreases stmts, 0
  {
    if stmts == [] then 0 else Max(LoopDepthOf(stmts[0]), LoopDepth(stmts[1..]))
  }

  /** MAX_LOOP_ITERATIONS to the power d. */
  function Power(d: nat): (p: nat)
    ensures p >= 1
  {
    if d == 0 then 1 else MAX_LOOP_ITERATIONS * Power(d - 1)
  }

  lemma {:induction false} PowerGrows(d: nat, e: nat)
    requires d <= e
    ensures Power(d) <= Power(e)
  {
    if d >= e {
    } else {
      PowerGrows(d, e - 1);
    }
  }

  lemma Deeper(size: nat, d: nat, e: nat)
    requires d <= e
    ensures size * Power(d) <= size * Power(e)
  {
    PowerGrows(d, e);
    Scale(Power(d), Power(e), size);
  }

  lemma Scale(a: nat, b: nat, k: nat)
    requires a <= b
    ensures k * a <= k * b
  {
  }

  /** The bound: the size of the block times 10000 to the power of its loop depth. */
  function Limit(stmts: seq<Stmt>): nat { Size(stmts) * Power(LoopDepth(stmts)) }

  /** Every block terminates, after executing at most Limit statements, if its expressions do. */
  lemma {:induction false} BlockBound(c: Ctx, stmts: seq<Stmt>, w: World)
    ensures ExecBlock(c, stmts, w).n <= Limit(stmts)
    decreases stmts, 0, 0
  {
    hide Power, ExecStatement, SizeOf, LoopDepthOf;
    if stmts == [] {
    } else {
      var s, rest, d := stmts[0], stmts[1..], LoopDepth(stmts);
      var r := ExecStatement(c, s, w);
      StatementBound(c, s, w);
      Deeper(SizeOf(s), LoopDepthOf(s), d);
      if r.out.Done? { BlockBound(c, rest, r.w); }
      Deeper(Size(rest), LoopDepth(rest), d);
      Distribute(SizeOf(s), Size(rest), Power(d));
    }
  }

  lemma Distribute(a: nat, b: nat, p: nat)
    ensures (a + b) * p == a * p + b * p
  {
  }

  /** Two parts of a statement together, at the depth of the whole. */
  lemma Parts(a: seq<Stmt>, b: seq<Stmt>, d: nat)
    requires LoopDepth(a) <= d && LoopDepth(b) <= d
    ensures Limit(a) + Limit(b) <= (Size(a) + Size(b)) * Power(d)
  {
    Deeper(Size(a), LoopDepth(a), d);
    Deeper(Size(b), LoopDepth(b), d);
    Distribute(Size(a), Size(b), Power(d));
  }

  lemma {:induction false} StatementBound(c: Ctx, s: Stmt, w: World)
    ensures ExecStatement(c, s, w).n <= SizeOf(s) * Power(LoopDepthOf(s))
    decreases s, 2, 0
  {
    hide Power;
    match s
    case If(_, _, _, _) => IfBound(c, s, w);
    case While(_, cond, body) =>
      hide ExecWhile;
      WhileBound(c, cond, body, 0, w);
      LoopTotal(body, MAX_LOOP_ITERATIONS);
    case ForIn(_, _, _, _) => IterableBound(c, s, w);
    case Try(_, _, _, _, _) => TryBound(c, s, w);
    case _ =>
      hide ExecStatement, SizeOf;
      SimpleCounts(c, s, w);
  }

  lemma {:induction false} IfBound(c: Ctx, s: Stmt, w: World)
    requires s.If?
    ensures ExecStatement(c, s, w).n <= SizeOf(s) * Power(LoopDepthOf(s))
    decreases s, 1, 0
  {
    hide Power, ExecBlock, LoopDepth, Size;
    var w1 := c.eval(s.cond, w).1;
    BlockBound(c, s.yes, w1);
    BlockBound(c, s.no, w1);
    Parts(s.yes, s.no, LoopDepthOf(s));
    Distribute(1, Size(s.yes) + Size(s.no), Power(LoopDepthOf(s)));
  }

  lemma {:induction false} IterableBound(c: Ctx, s: Stmt, w: World)
    requires s.ForIn?
    ensures ExecStatement(c, s, w).n <= SizeOf(s) * Power(LoopDepthOf(s))
    decreases s, 1, 0
  {
    hide Power, ExecForIn, LoopDepth, Size;
    var (v, w1) := c.eval(s.iterable, w);
    if v.Ok? && v.value.List? && |v.value.items| <= MAX_LOOP_ITERATIONS {
      ForInBound(c, s.name, Cells(c, s.iterable, w, |v.value.items|), s.body, w1);
      LoopTotal(s.body, |v.value.items|);
    } else {
      LoopTotal(s.body, 0);
    }
  }

  lemma {:induction false} TryBound(c: Ctx, s: Stmt, w: World)
    requires s.Try?
    ensures ExecStatement(c, s, w).n <= SizeOf(s) * Power(LoopDepthOf(s))
    decreases s, 1, 0
  {
    hide Power, ExecBlock, LoopDepth, Size;
    var b, g := ExecBlock(c, s.body, w), ExecGuarded(c, s, w);
    BlockBound(c, s.body, w);
    if Caught(b.out) { BlockBound(c, s.handler, Catching(s.errName, b.out.err, b.w)); }
    BlockBound(c, s.last, g.w);
    TryTotal(s.body, s.handler, s.last, LoopDepthOf(s));
  }

  lemma TryTotal(body: seq<Stmt>, handler: seq<Stmt>, last: seq<Stmt>, d: nat)
    requires LoopDepth(body) <= d && LoopDepth(handler) <= d && LoopDepth(last) <= d
    ensures 1 + Limit(body) + Limit(handler) + Limit(last) <= (1 + Size(body) + Size(handler) + Size(last)) * Power(d)
  {
    hide Size, LoopDepth, Power;
    Deeper(Size(body), LoopDepth(body), d);
    Deeper(Size(handler), LoopDepth(handler), d);
    Deeper(Size(last), LoopDepth(last), d);
    SumUp(Size(body), Size(handler), Size(last), Power(d));
  }

  lemma SumUp(a: nat, b: nat, e: nat, p: nat)
    requires p >= 1
    ensures 1 + a * p + b * p + e * p <= (1 + a + b + e) * p
  {
    Distribute(a, b, p);
    Distribute(a + b, e, p);
    Distribute(1, a + b + e, p);
  }

  lemma Regroup(a: nat, k: nat, p: nat)
    ensures k * (a * p) == a * (k * p)
  {
  }

  /** A loop that runs its body k times at most. */
  lemma LoopTotal(body: seq<Stmt>, k: nat)
    requires k <= MAX_LOOP_ITERATIONS
    ensures 1 + k * Limit(body) <= (1 + Size(body)) * Power(1 + LoopDepth(body))
  {
    var p := Power(LoopDepth(body));
    var m := Limit(body);
    assert k * m <= MAX_LOOP_ITERATIONS * m by { Scale(k, MAX_LOOP_ITERATIONS, m); }
    Regroup(Size(body), MAX_LOOP_ITERATIONS, p);
    Distribute(1, Size(body), MAX_LOOP_ITERATIONS * p);
  }

  lemma SimpleCounts(c: Ctx, s: Stmt, w: World)
    requires Simple(s)
    ensures ExecStatement(c, s, w).n == 1 && SizeOf(s) == 1
  {
    if s.Goto? && s.called { RouteCounts(c, s, w); }
    if s.GotoMatch? {
      var (v, w1) := c.eval(s.subject, w);
      if v.Ok? { ArmsCount(c, v.value, s.arms, w1); }
    }
  }

  lemma {:induction false} ArmsCount(c: Ctx, subject: Value, arms: seq<Arm>, w: World)
    ensures ExecGotoArms(c, subject, arms, w).n == 0
    decreases |arms|
  {
    if arms == [] {
    } else {
      var w1 := if arms[0].pattern.None? then w else c.eval(arms[0].pattern.value, w).1;
      ArmsCount(c, subject, arms[1..], w1);
    }
  }

  lemma RouteCounts(c: Ctx, s: Stmt, w: World)
    requires s.Goto?
    ensures ExecGotoRoute(c, s, w).n == 0
  {
    if s.target in c.routes && |s.args| == |c.routes[s.target].params| {
      var route := c.routes[s.target];
      var (out, w1, env) := BindArgs(c, route, s.args, 0, w, w.env);
      if |route.params| == 1 && route.params[0] in env {
        ArmsCount(c, env[route.params[0]], route.arms, w1.(env := env));
      }
    }
  }

  lemma OneMore(k: nat, m: nat)
    requires k > 0
    ensures k * m == (k - 1) * m + m && m <= k * m
  {
  }

  lemma {:induction false} WhileBound(c: Ctx, cond: Expr, body: seq<Stmt>, i: nat, w: World)
    requires i <= MAX_LOOP_ITERATIONS
    ensures ExecWhile(c, cond, body, i, w).n <= (MAX_LOOP_ITERATIONS - i) * Limit(body)
    decreases body, 1, MAX_LOOP_ITERATIONS - i
  {
    hide Limit, ExecBlock;
    if i >= MAX_LOOP_ITERATIONS {
    } else {
      var (v, w1) := c.eval(cond, w);
      var r := ExecBlock(c, body, w1);
      BlockBound(c, body, w1);
      if v.Ok? && v.value.Bool? && v.value.b && r.out.Done? { WhileBound(c, cond, body, i + 1, r.w); }
      OneMore(MAX_LOOP_ITERATIONS - i, Limit(body));
    }
  }

  lemma {:induction false} ForInBound(c: Ctx, name: string, items: seq<Cell>, body: seq<Stmt>, w: World)
    ensures ExecForIn(c, name, items, body, w).n <= |items| * Limit(body)
    decreases body, 1, |items|
  {
    hide Limit, ExecBlock;
    if items == [] {
    } else {
      var r := ExecBlock(c, body, Bind(w, name, items[0](w)));
      BlockBound(c, body, Bind(w, name, items[0](w)));
      if r.out.Done? { ForInBound(c, name, items[1..], body, r.w); }
      OneMore(|items|, Limit(body));
    }
  }
}
