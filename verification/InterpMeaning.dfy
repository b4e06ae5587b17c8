/**
 What single statements come to, turn by turn and name by name, whatever is nested in them
 (internal/engine/interpreter/exec.go and match.go).
*/
module InterpMeaning {
  import opened Interp
  import opened Options

  // ------------------------------------------------------------ loops, turn by turn

  /** The world in which turn k of a for-in runs its body: the name holds what element k holds by then. */
  function TurnWorld(c: Ctx, name: string, x: Expr, w0: World, k: nat, u: World): World {
    World(u.env[name := c.item(x, w0, k, u)], u.consts, u.rest)
  }

  /** Turn k, begun in u, runs the body to its end and leaves v. */
  ghost predicate OneTurn(c: Ctx, name: string, x: Expr, w0: World, body: seq<Stmt>, k: nat, u: World, v: World) {
    var r := ExecBlock(c, body, TurnWorld(c, name, x, w0, k, u));
    r.out == Done && r.w == v
  }

  /** us[k] is the world before turn from + k, and every turn but the last one these lead to has completed. */
  ghost predicate Turns(c: Ctx, name: string, x: Expr, w0: World, body: seq<Stmt>, us: seq<World>, from: nat) {
    forall k :: 0 <= k < |us| - 1 ==> OneTurn(c, name, x, w0, body, from + k, us[k], us[k + 1])
  }

  lemma TurnBefore(c: Ctx, name: string, x: Expr, w0: World, body: seq<Stmt>, w: World, us: seq<World>, from: nat)
    requires us != [] && OneTurn(c, name, x, w0, body, from, w, us[0]) && Turns(c, name, x, w0, body, us, from + 1)
    ensures Turns(c, name, x, w0, body, [w] + us, from)
  {
    hide OneTurn;
    var vs := [w] + us;
    forall k | 0 <= k < |vs| - 1 ensures OneTurn(c, name, x, w0, body, from + k, vs[k], vs[k + 1]) {
      if k > 0 { assert OneTurn(c, name, x, w0, body, from + 1 + (k - 1), us[k - 1], us[k]); }
    }
  }

  /** How the loop ended: after all n turns, or with what the body of the last one raised. */
  ghost predicate EndsAfter(
    c: Ctx, name: string, x: Expr, w0: World, body: seq<Stmt>, us: seq<World>, from: nat, n: nat, out: Outcome,
    w: World)
    requires us != []
  {
    var k := |us| - 1;
    if from + k == n then out == Done && w == us[k]
    else
      var r := ExecBlock(c, body, TurnWorld(c, name, x, w0, from + k, us[k]));
      from + k < n && r.out != Done && out == r.out && w == r.w
  }

  lemma {:induction false} TurnsFrom(
    c: Ctx, name: string, x: Expr, w0: World, body: seq<Stmt>, n: nat, from: nat, w: World) returns (us: seq<World>)
    requires from <= n
    ensures us != [] && us[0] == w && Turns(c, name, x, w0, body, us, from)
    ensures var r := ExecForIn(c, name, Cells(c, x, w0, n)[from..], body, w);
      EndsAfter(c, name, x, w0, body, us, from, n, r.out, r.w)
    decreases n - from
  {
    var cells := Cells(c, x, w0, n);
    if from == n {
      us := [w];
    } else {
      assert cells[from..][0] == cells[from] && cells[from..][1..] == cells[from + 1..];
      var r := ExecBlock(c, body, TurnWorld(c, name, x, w0, from, w));
      assert Bind(w, name, cells[from](w)) == TurnWorld(c, name, x, w0, from, w);
      if r.out.Raised? {
        us := [w];
      } else {
        var vs := TurnsFrom(c, name, x, w0, body, n, from + 1, r.w);
        us := [w] + vs;
        TurnBefore(c, name, x, w0, body, w, vs, from);
        assert us[|us| - 1] == vs[|vs| - 1];
      }
    }
  }

  /**
   A for-in over an array of n elements, 10000 at most, runs its body for element 0, 1, 2, ... in this
   order, each time in the world the turn before left and with the name bound to the element as it is
   by then. It ends after exactly n turns, or with the first turn whose body does not complete.
  */
  lemma ForInRuns(c: Ctx, s: Stmt, w: World)
    requires s.ForIn?
    ensures var (v, w1) := c.eval(s.iterable, w);
      var r := ExecStatementBody(c, s, w);
      if v.Err? then r.out == Raised(v.err) && r.w == w1
      else if !v.value.List? then r.out == Raised(Plain("for-in requires an array")) && r.w == w1
      else if |v.value.items| > 10_000 then
        r.out == Raised(Plain("for-in exceeded the maximum of iterations")) && r.w == w1
      else exists us: seq<World> :: us != [] && us[0] == w1 && Turns(c, s.name, s.iterable, w, s.body, us, 0)
             && EndsAfter(c, s.name, s.iterable, w, s.body, us, 0, |v.value.items|, r.out, r.w)
  {
    var (v, w1) := c.eval(s.iterable, w);
    if v.Ok? && v.value.List? && |v.value.items| <= 10_000 {
      var n := |v.value.items|;
      var us := TurnsFrom(c, s.name, s.iterable, w, s.body, n, 0, w1);
      assert Cells(c, s.iterable, w, n)[0..] == Cells(c, s.iterable, w, n);
    }
  }

  /** The condition holds in u, and the body then runs to its end and leaves v. */
  ghost predicate OneRound(c: Ctx, cond: Expr, body: seq<Stmt>, u: World, v: World) {
    var (b, u1) := c.eval(cond, u);
    var r := ExecBlock(c, body, u1);
    b == Ok(Bool(true)) && r.out == Done && r.w == v
  }

  /** us[k] is the world before the condition is evaluated for the k-th time, and the rounds between completed. */
  ghost predicate Repeats(c: Ctx, cond: Expr, body: seq<Stmt>, us: seq<World>) {
    forall k :: 0 <= k < |us| - 1 ==> OneRound(c, cond, body, us[k], us[k + 1])
  }

  lemma RoundBefore(c: Ctx, cond: Expr, body: seq<Stmt>, w: World, us: seq<World>)
    requires us != [] && OneRound(c, cond, body, w, us[0]) && Repeats(c, cond, body, us)
    ensures Repeats(c, cond, body, [w] + us)
  {
    hide OneRound;
    var vs := [w] + us;
    forall k | 0 <= k < |vs| - 1 ensures OneRound(c, cond, body, vs[k], vs[k + 1]) {
      if k > 0 { assert OneRound(c, cond, body, us[k - 1], us[k]); }
    }
  }

  /** What ended the loop at its last condition. */
  ghost predicate Stops(c: Ctx, cond: Expr, body: seq<Stmt>, u: World, turns: nat, out: Outcome, w: World) {
    if turns == 10_000 then out == Raised(Plain("while loop exceeded the maximum of iterations")) && w == u
    else
      var (v, u1) := c.eval(cond, u);
      turns < 10_000 &&
      match v
      case Err(e) => out == Raised(e) && w == u1
      case Ok(Bool(true)) => var r := ExecBlock(c, body, u1); r.out != Done && out == r.out && w == r.w
      case Ok(Bool(false)) => out == Done && w == u1
      case Ok(_) => out == Raised(Plain("while condition must be a bool")) && w == u1
  }

  lemma {:induction false} RepeatsFrom(c: Ctx, cond: Expr, body: seq<Stmt>, i: nat, w: World) returns (us: seq<World>)
    requires i <= 10_000
    ensures us != [] && us[0] == w && Repeats(c, cond, body, us)
    ensures var r := ExecWhile(c, cond, body, i, w);
      Stops(c, cond, body, us[|us| - 1], i + |us| - 1, r.out, r.w)
    decreases 10_000 - i
  {
    us := [w];
    var (v, w1) := c.eval(cond, w);
    if i < 10_000 && v == Ok(Bool(true)) && ExecBlock(c, body, w1).out.Done? {
      var r := ExecBlock(c, body, w1);
      var vs := RepeatsFrom(c, cond, body, i + 1, r.w);
      us := [w] + vs;
      RoundBefore(c, cond, body, w, vs);
      assert us[|us| - 1] == vs[|vs| - 1];
    }
  }

  /**
   A while evaluates its condition and runs its body in turn, each in the world the one before left. It
   ends at the first condition that is false or no bool, with the first turn that does not complete, or
   after 10000 turns with an error.
  */
  lemma WhileRuns(c: Ctx, s: Stmt, w: World)
    requires s.While?
    ensures var r := ExecStatementBody(c, s, w);
      exists us: seq<World> :: us != [] && us[0] == w && Repeats(c, s.cond, s.body, us)
        && Stops(c, s.cond, s.body, us[|us| - 1], |us| - 1, r.out, r.w)
  {
    var us := RepeatsFrom(c, s.cond, s.body, 0, w);
  }

  // ------------------------------------------------------------ branches and signals

  /** An if runs exactly the branch its condition selects, in the world evaluating it left. */
  lemma IfRuns(c: Ctx, s: Stmt, w: World)
    requires s.If? && c.eval(s.cond, w).0.Ok? && c.eval(s.cond, w).0.value.Bool?
    ensures var (v, u) := c.eval(s.cond, w);
      && (v.value == Bool(true) ==> ExecStatementBody(c, s, w) == ExecBlock(c, s.yes, u))
      && (v.value == Bool(false) ==> ExecStatementBody(c, s, w) == ExecBlock(c, s.no, u))
  {
  }

  /** Return and break unwind with the value of their expression, or with nil. */
  lemma Unwinds(c: Ctx, s: Stmt, w: World)
    requires s.Return? || s.Break?
    ensures var x := if s.Return? then s.result else s.reason;
      var (v, u) := if x.Some? then c.eval(x.value, w) else (Ok(Nil), w);
      var r := ExecStatement(c, s, w);
      && r.w == u && r.n == 1
      && (v.Ok? ==> r.out == Raised(Sig(if s.Return? then ReturnSignal(v.value) else BreakSignal(v.value))))
  {
  }

  // ------------------------------------------------------------ names

  /** Everything but this name is as it was. */
  ghost predicate OnlyBinds(u: World, w: World, name: string, v: Value) {
    && name in w.env && w.env[name] == v && w.rest == u.rest
    && (forall other :: other != name ==> (other in w.env <==> other in u.env))
    && (forall other :: other != name && other in u.env ==> w.env[other] == u.env[other])
  }

  /**
   A declaration binds its name to the value, in the world evaluating it left; a const also forbids a
   later var of that name, which then fails without evaluating anything.
  */
  lemma Declares(c: Ctx, s: Stmt, w: World)
    requires s.Const? || s.Var?
    ensures var (v, u) := c.eval(s.value, w);
      var r := ExecStatement(c, s, w);
      if s.Var? && s.name in w.consts then r.out.Raised? && r.w == w
      else if v.Err? then r.out.Raised? && r.w == u
      else
        && r.out == Done && OnlyBinds(u, r.w, s.name, v.value)
        && r.w.consts == if s.Const? then u.consts + {s.name} else u.consts
  {
  }

  // ------------------------------------------------------------ catch

  /** What an error chain ends in. */
  function Root(e: Err): Err {
    match e
    case Wrapped(_, inner) => Root(inner)
    case At(_, inner) => Root(inner)
    case _ => e
  }

  /** An error is a control signal exactly if its chain ends in one, however often it is wrapped or positioned. */
  lemma {:induction false} SignalIsRoot(e: Err)
    ensures FindSignal(e) == if Root(e).Sig? then Some(Root(e).signal) else None
  {
    if e.Wrapped? || e.At? { SignalIsRoot(e.inner); }
  }

  /** The text of an error, without any position. */
  function Message(e: Err): string {
    match e
    case Plain(msg) => msg
    case Wrapped(msg, inner) => msg + Message(inner)
    case At(_, inner) => Message(inner)
    case Sig(_) => ""
  }

  lemma {:induction false} RendersMessage(e: Err)
    requires FindPosition(e).None? && FindSignal(e).None?
    ensures Render(e) == Message(e)
  {
    if e.Wrapped? { RendersMessage(e.inner); }
  }

  /**
   A handler starts in the world the body left, with the name bound to the message of the error that
   was raised, free of the position of the statement that failed, and nothing else changed.
  */
  lemma CatchSees(c: Ctx, s: Stmt, w: World, pos: Pos, e: Err)
    requires s.Try? && s.errName != "" && ExecBlock(c, s.body, w).out == Raised(At(pos, e))
    requires FindPosition(e).None? && !Root(e).Sig?
    ensures var b := ExecBlock(c, s.body, w);
      exists u :: OnlyBinds(b.w, u, s.errName, Text(Message(e))) && u.consts == b.w.consts
        && ExecGuarded(c, s, w) == ExecBlock(c, s.handler, u).(n := b.n + ExecBlock(c, s.handler, u).n)
  {
    SignalIsRoot(e);
    RendersMessage(e);
    var b := ExecBlock(c, s.body, w);
    var u := World(b.w.env[s.errName := Text(Message(e))], b.w.consts, b.w.rest);
    assert Catching(s.errName, b.out.err, b.w) == u;
    assert OnlyBinds(b.w, u, s.errName, Text(Message(e)));
  }

  // ------------------------------------------------------------ goto match

  /**
   The patterns before arm k are evaluated in order and give other values; the k-th one, if any, gives the subject.
  */
  ghost predicate Picks(c: Ctx, subject: Value, arms: seq<Arm>, k: nat, ws: seq<World>)
    requires k < |arms| && |ws| == k + 2
  {
    && (forall j :: 0 <= j < k ==>
          arms[j].pattern.Some? && ws[j + 1] == c.eval(arms[j].pattern.value, ws[j]).1
          && c.eval(arms[j].pattern.value, ws[j]).0.Ok? && c.eval(arms[j].pattern.value, ws[j]).0.value != subject)
    && if arms[k].pattern.None? then ws[k + 1] == ws[k]
       else c.eval(arms[k].pattern.value, ws[k]) == (Ok(subject), ws[k + 1])
  }

  /**
   The first arm whose pattern gives the subject's value, or the first wildcard, decides: its target is
   jumped to or its reason raised, in the world the patterns up to it left.
  */
  lemma {:induction false} FirstArmDecides(c: Ctx, subject: Value, arms: seq<Arm>, k: nat, ws: seq<World>)
    requires k < |arms| && |ws| == k + 2 && Picks(c, subject, arms, k, ws)
    ensures var r := ExecGotoArms(c, subject, arms, ws[0]);
      if arms[k].fail.None? then r == Ran(Raised(Sig(GotoSignal(arms[k].target))), ws[k + 1], 0)
      else
        var (reason, u) := c.eval(arms[k].fail.value, ws[k + 1]);
        r == Ran(Raised(if reason.Err? then reason.err else Plain(c.show(reason.value))), u, 0)
    decreases k
  {
    if k == 0 {
    } else {
      assert arms[0].pattern.Some? && ws[1] == c.eval(arms[0].pattern.value, ws[0]).1;
      forall j | 0 <= j < k - 1
        ensures arms[1..][j].pattern.Some? && ws[1..][j + 1] == c.eval(arms[1..][j].pattern.value, ws[1..][j]).1
          && c.eval(arms[1..][j].pattern.value, ws[1..][j]).0.Ok?
          && c.eval(arms[1..][j].pattern.value, ws[1..][j]).0.value != subject
      {
        assert arms[1..][j] == arms[j + 1] && ws[1..][j] == ws[j + 1] && ws[1..][j + 1] == ws[j + 2];
      }
      FirstArmDecides(c, subject, arms[1..], k - 1, ws[1..]);
    }
  }

  /** A called route tries its arms on the value of the one argument, which they see under the parameter's name. */
  lemma RouteTakesArgument(c: Ctx, s: Stmt, w: World)
    requires s.Goto? && s.called && s.target in c.routes
    requires |s.args| == |c.routes[s.target].params| == 1 && s.args[0].name == "" && c.eval(s.args[0].value, w).0.Ok?
    ensures var route := c.routes[s.target];
      var (v, u) := c.eval(s.args[0].value, w);
      exists inside :: OnlyBinds(World(w.env, u.consts, u.rest), inside, route.params[0], v.value)
        && inside.consts == u.consts
        && var a, r := ExecGotoArms(c, v.value, route.arms, inside), ExecStatementBody(c, s, w);
           r.out == a.out && r.w.env == u.env && r.w.consts == a.w.consts && r.w.rest == a.w.rest
  {
    var route := c.routes[s.target];
    var (v, u) := c.eval(s.args[0].value, w);
    var env := w.env[route.params[0] := v.value];
    assert BindArgs(c, route, s.args, 1, u, env) == (Done, u, env);
    assert BindArgs(c, route, s.args, 0, w, w.env) == (Done, u, env);
    var inside := u.(env := env);
    assert OnlyBinds(World(w.env, u.consts, u.rest), inside, route.params[0], v.value);
  }
}
