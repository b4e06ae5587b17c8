/**
 The static plan: the goto edges that inspection collects (internal/execsvc/inspect.go), and the
 step and route lookups of the interpreter they have to agree with.
*/
module Plan {
  import opened Interp
  import opened Options

  // ------------------------------------------------------------ programs

  datatype Member =
    | Step(name: string, body: seq<Stmt>)
    | Parallel(steps: seq<Member>)
    | RouteDecl(route: Route)
    | OtherMember

  /** A pipeline declaration; declarations of other kinds are skipped by every walk here. */
  datatype Decl = Decl(name: string, members: seq<Member>)

  type Program = seq<Decl>

  // ------------------------------------------------------------ what inspection collects

  function ArmTargets(arms: seq<Arm>): seq<string> {
    if arms == [] then []
    else (if arms[0].fail.None? then [arms[0].target] else []) + ArmTargets(arms[1..])
  }

  function TargetsOf(s: Stmt, routes: map<string, Route>): seq<string>
    decreases s, 1
  {
    match s
    case Goto(_, target, called, _) =>
      if called && target in routes then ArmTargets(routes[target].arms) else [target]
    case GotoMatch(_, _, arms) => ArmTargets(arms)
    case If(_, _, yes, no) => Targets(yes, routes) + Targets(no, routes)
    case While(_, _, body) => Targets(body, routes)
    case ForIn(_, _, _, body) => Targets(body, routes)
    case Try(_, body, _, handler, last) => Targets(body, routes) + Targets(handler, routes) + Targets(last, routes)
    case _ => []
  }

  function Targets(stmts: seq<Stmt>, routes: map<string, Route>): seq<string>
    decreases stmts, 0
  {
    if stmts == [] then [] else TargetsOf(stmts[0], routes) + Targets(stmts[1..], routes)
  }

  /** The statement is among these, at any depth. */
  ghost predicate IsOrHolds(g: Stmt, s: Stmt)
    decreases s, 1
  {
    g == s || match s
      case If(_, _, yes, no) => Occurs(g, yes) || Occurs(g, no)
      case While(_, _, body) => Occurs(g, body)
      case ForIn(_, _, _, body) => Occurs(g, body)
      case Try(_, body, _, handler, last) => Occurs(g, body) || Occurs(g, handler) || Occurs(g, last)
      case _ => false
  }

  ghost predicate Occurs(g: Stmt, stmts: seq<Stmt>)
    decreases stmts, 0
  {
    stmts != [] && (IsOrHolds(g, stmts[0]) || Occurs(g, stmts[1..]))
  }

  /** An arm that does not fail goes there. */
  predicate ArmGoes(arms: seq<Arm>, t: string) {
    exists k :: 0 <= k < |arms| && arms[k].fail.None? && arms[k].target == t
  }

  /** What a goto statement names: its target, or for a match, or a call of a known route, a target of its arms. */
  predicate NamesTarget(g: Stmt, routes: map<string, Route>, t: string) {
    || (g.Goto? && !(g.called && g.target in routes) && g.target == t)
    || (g.Goto? && g.called && g.target in routes && ArmGoes(routes[g.target].arms, t))
    || (g.GotoMatch? && ArmGoes(g.arms, t))
  }

  lemma {:induction false} ArmTargetIff(arms: seq<Arm>, t: string)
    ensures t in ArmTargets(arms) <==> ArmGoes(arms, t)
  {
    if arms == [] {
    } else {
      ArmTargetIff(arms[1..], t);
      if k :| 0 <= k < |arms| && arms[k].fail.None? && arms[k].target == t {
        if k > 0 { assert arms[1..][k - 1] == arms[k]; }
      }
      if k :| 0 <= k < |arms[1..]| && arms[1..][k].fail.None? && arms[1..][k].target == t {
        assert arms[k + 1] == arms[1..][k];
      }
    }
  }

  /** Some goto statement of the block, at any depth, names the target. */
  ghost predicate SomeNames(stmts: seq<Stmt>, routes: map<string, Route>, t: string) {
    exists g :: Occurs(g, stmts) && NamesTarget(g, routes, t)
  }

  ghost predicate SomeNamesOf(s: Stmt, routes: map<string, Route>, t: string) {
    exists g :: IsOrHolds(g, s) && NamesTarget(g, routes, t)
  }

  lemma NamesInParts(stmts: seq<Stmt>, routes: map<string, Route>, t: string)
    ensures SomeNames(stmts, routes, t) <==>
      stmts != [] && (SomeNamesOf(stmts[0], routes, t) || SomeNames(stmts[1..], routes, t))
  {
    hide NamesTarget, IsOrHolds;
    if SomeNames(stmts, routes, t) {
      var g :| Occurs(g, stmts) && NamesTarget(g, routes, t);
      assert IsOrHolds(g, stmts[0]) || Occurs(g, stmts[1..]);
    }
    if stmts != [] && SomeNamesOf(stmts[0], routes, t) {
      var g :| IsOrHolds(g, stmts[0]) && NamesTarget(g, routes, t);
      assert Occurs(g, stmts);
    }
    if stmts != [] && SomeNames(stmts[1..], routes, t) {
      var g :| Occurs(g, stmts[1..]) && NamesTarget(g, routes, t);
      assert Occurs(g, stmts);
    }
  }

  /** The blocks nested in a statement. */
  function Blocks(s: Stmt): seq<seq<Stmt>> {
    match s
    case If(_, _, yes, no) => [yes, no]
    case While(_, _, body) => [body]
    case ForIn(_, _, _, body) => [body]
    case Try(_, body, _, handler, last) => [body, handler, last]
    case _ => []
  }

  lemma HeldByBlock(g: Stmt, s: Stmt)
    requires IsOrHolds(g, s) && g != s
    ensures exists k :: 0 <= k < |Blocks(s)| && Occurs(g, Blocks(s)[k])
  {
    hide Occurs;
    match s
    case If(_, _, yes, no) => assert Blocks(s)[0] == yes && Blocks(s)[1] == no;
    case While(_, _, body) => assert Blocks(s)[0] == body;
    case ForIn(_, _, _, body) => assert Blocks(s)[0] == body;
    case Try(_, body, _, handler, last) =>
      assert Blocks(s)[0] == body && Blocks(s)[1] == handler && Blocks(s)[2] == last;
    case _ =>
  }

  lemma NamesNested(s: Stmt, routes: map<string, Route>, t: string)
    ensures SomeNamesOf(s, routes, t) <==>
      NamesTarget(s, routes, t) || exists k :: 0 <= k < |Blocks(s)| && SomeNames(Blocks(s)[k], routes, t)
  {
    hide NamesTarget, Occurs;
    if SomeNamesOf(s, routes, t) {
      var g :| IsOrHolds(g, s) && NamesTarget(g, routes, t);
      if g != s {
        HeldByBlock(g, s);
        var k :| 0 <= k < |Blocks(s)| && Occurs(g, Blocks(s)[k]);
        assert SomeNames(Blocks(s)[k], routes, t);
      }
    }
    if NamesTarget(s, routes, t) { assert IsOrHolds(s, s); }
    if k :| 0 <= k < |Blocks(s)| && SomeNames(Blocks(s)[k], routes, t) {
      var g :| Occurs(g, Blocks(s)[k]) && NamesTarget(g, routes, t);
      assert IsOrHolds(g, s);
    }
  }

  /** Exactly the targets that some goto statement of the block, at any depth, names are collected. */
  lemma {:induction false} CollectedIff(stmts: seq<Stmt>, routes: map<string, Route>, t: string)
    ensures t in Targets(stmts, routes) <==> SomeNames(stmts, routes, t)
    decreases stmts, 0
  {
    hide SomeNames, SomeNamesOf;
    NamesInParts(stmts, routes, t);
    if stmts == [] {
    } else {
      CollectedOfIff(stmts[0], routes, t);
      CollectedIff(stmts[1..], routes, t);
    }
  }

  lemma {:induction false} CollectedOfIff(s: Stmt, routes: map<string, Route>, t: string)
    ensures t in TargetsOf(s, routes) <==> SomeNamesOf(s, routes, t)
    decreases s, 1
  {
    hide SomeNames, SomeNamesOf, ArmGoes, ArmTargets;
    NamesNested(s, routes, t);
    match s
    case Goto(_, target, called, _) =>
      if called && target in routes { ArmTargetIff(routes[target].arms, t); }
    case GotoMatch(_, _, arms) => ArmTargetIff(arms, t);
    case If(_, _, yes, no) =>
      CollectedIff(yes, routes, t);
      CollectedIff(no, routes, t);
      assert Blocks(s)[0] == yes && Blocks(s)[1] == no;
    case While(_, _, body) =>
      CollectedIff(body, routes, t);
      assert Blocks(s)[0] == body;
    case ForIn(_, _, _, body) =>
      CollectedIff(body, routes, t);
      assert Blocks(s)[0] == body;
    case Try(_, body, _, handler, last) =>
      CollectedIff(body, routes, t);
      CollectedIff(handler, routes, t);
      CollectedIff(last, routes, t);
      assert Blocks(s)[0] == body && Blocks(s)[1] == handler && Blocks(s)[2] == last;
    case _ =>
  }

  /** The routes of one declaration by name; a later one of the same name replaces an earlier. */
  function LastRoutes(members: seq<Member>): map<string, Route> {
    if members == [] then map[]
    else
      var m := members[|members| - 1];
      var before := LastRoutes(members[..|members| - 1]);
      if m.RouteDecl? then before[m.route.name := m.route] else before
  }

  datatype Edge = Edge(start: string, target: string)

  function EdgesFrom(step: string, targets: seq<string>): seq<Edge> {
    if targets == [] then [] else [Edge(step, targets[0])] + EdgesFrom(step, targets[1..])
  }

  function DeclEdges(members: seq<Member>, routes: map<string, Route>): seq<Edge> {
    if members == [] then []
    else (if members[0].Step? then EdgesFrom(members[0].name, Targets(members[0].body, routes)) else [])
         + DeclEdges(members[1..], routes)
  }

  /** collectPipelineGotos. */
  function Collected(prog: Program, name: string): seq<Edge> {
    if prog == [] then []
    else (if prog[0].name == name then DeclEdges(prog[0].members, LastRoutes(prog[0].members)) else [])
         + Collected(prog[1..], name)
  }

  /** The walk itself appends to one slice. */
  class Collector {
    var out: seq<string>

    constructor ()
      ensures out == []
    {
      out := [];
    }

    method AddArms(arms: seq<Arm>)
      modifies this
      ensures out == old(out) + ArmTargets(arms)
    {
      for k := 0 to |arms|
        invariant out + ArmTargets(arms[k..]) == old(out) + ArmTargets(arms)
      {
        assert arms[k..][1..] == arms[k + 1..];
        if arms[k].fail.None? { out := out + [arms[k].target]; }
      }
    }

    method Walk(stmts: seq<Stmt>, routes: map<string, Route>)
      modifies this
      ensures out == old(out) + Targets(stmts, routes)
      decreases stmts, 0
    {
      for k := 0 to |stmts|
        invariant out + Targets(stmts[k..], routes) == old(out) + Targets(stmts, routes)
      {
        assert stmts[k..][1..] == stmts[k + 1..];
        WalkStatement(stmts[k], routes);
      }
    }

    method WalkStatement(s: Stmt, routes: map<string, Route>)
      modifies this
      ensures out == old(out) + TargetsOf(s, routes)
      decreases s, 1
    {
      match s {
        case Goto(_, target, called, _) =>
          if called && target in routes { AddArms(routes[target].arms); } else { out := out + [target]; }
        case GotoMatch(_, _, arms) => AddArms(arms);
        case If(_, _, yes, no) =>
          Walk(yes, routes);
          Walk(no, routes);
        case While(_, _, body) => Walk(body, routes);
        case ForIn(_, _, _, body) => Walk(body, routes);
        case Try(_, body, _, handler, last) =>
          Walk(body, routes);
          Walk(handler, routes);
          Walk(last, routes);
        case _ =>
      }
    }
  }

  // ------------------------------------------------------------ what execution looks up

  /** The routes of a list of members not in m yet; the first of a name stays. */
  function FirstIn(members: seq<Member>, m: map<string, Route>): map<string, Route> {
    if members == [] then m
    else if members[0].RouteDecl? && members[0].route.name !in m
    then FirstIn(members[1..], m[members[0].route.name := members[0].route])
    else FirstIn(members[1..], m)
  }

  /** findWorkflowRoute, for every name at once. */
  function FirstRoutes(prog: Program, name: string, m: map<string, Route>): map<string, Route> {
    if prog == [] then m
    else FirstRoutes(prog[1..], name, if prog[0].name == name then FirstIn(prog[0].members, m) else m)
  }

  /** A step found: its body, the declaration it is in, and whether it is a plain one. */
  datatype Found = Found(body: seq<Stmt>, decl: Decl, plain: bool)

  function StepIn(members: seq<Member>, step: string, d: Decl): Option<Found> {
    if members == [] then None
    else if members[0].Step? && members[0].name == step then Some(Found(members[0].body, d, true))
    else if members[0].Parallel? && BranchIn(members[0].steps, step).Some?
    then Some(Found(BranchIn(members[0].steps, step).value, d, false))
    else StepIn(members[1..], step, d)
  }

  function BranchIn(steps: seq<Member>, step: string): Option<seq<Stmt>> {
    if steps == [] then None
    else if steps[0].Step? && steps[0].name == step then Some(steps[0].body)
    else BranchIn(steps[1..], step)
  }

  /** findStep; no pipeline name means any. */
  function FindStep(prog: Program, pipeline: string, step: string): Option<Found> {
    if prog == [] then None
    else if (pipeline == "" || prog[0].name == pipeline) && StepIn(prog[0].members, step, prog[0]).Some?
    then StepIn(prog[0].members, step, prog[0])
    else FindStep(prog[1..], pipeline, step)
  }

  /** The routes that the pipeline's declarations declare, in order. */
  function Declared(prog: Program, name: string): seq<Route> {
    if prog == [] then []
    else (if prog[0].name == name then RoutesOf(prog[0].members) else []) + Declared(prog[1..], name)
  }

  function RoutesOf(members: seq<Member>): seq<Route> {
    if members == [] then [] else (if members[0].RouteDecl? then [members[0].route] else []) + RoutesOf(members[1..])
  }

  /** The first of the list that has this name. */
  predicate FirstNamed(rs: seq<Route>, n: string, r: Route) {
    exists i :: 0 <= i < |rs| && rs[i] == r && r.name == n && forall j :: 0 <= j < i ==> rs[j].name != n
  }

  predicate NoneNamed(rs: seq<Route>, n: string) { forall i :: 0 <= i < |rs| ==> rs[i].name != n }

  lemma FirstOfTwo(a: seq<Route>, b: seq<Route>, n: string, r: Route)
    ensures FirstNamed(a, n, r) ==> FirstNamed(a + b, n, r)
    ensures NoneNamed(a, n) && FirstNamed(b, n, r) ==> FirstNamed(a + b, n, r)
    ensures NoneNamed(a + b, n) <==> NoneNamed(a, n) && NoneNamed(b, n)
  {
    var c := a + b;
    assert forall i :: 0 <= i < |a| ==> c[i] == a[i];
    assert forall i :: 0 <= i < |b| ==> c[|a| + i] == b[i];
    if FirstNamed(a, n, r) {
      var i :| 0 <= i < |a| && a[i] == r && r.name == n && forall j :: 0 <= j < i ==> a[j].name != n;
      assert c[i] == r;
    }
    if NoneNamed(a, n) && FirstNamed(b, n, r) {
      var i :| 0 <= i < |b| && b[i] == r && r.name == n && forall j :: 0 <= j < i ==> b[j].name != n;
      assert c[|a| + i] == r;
    }
  }

  /** What a lookup adds to the routes found before. */
  ghost predicate Adds(before: map<string, Route>, after: map<string, Route>, rs: seq<Route>) {
    forall n ::
      && (n in before ==> n in after && after[n] == before[n])
      && (n !in before && n in after ==> FirstNamed(rs, n, after[n]))
      && (n !in before && n !in after ==> NoneNamed(rs, n))
  }

  lemma AddsJoin(m: map<string, Route>, u: map<string, Route>, v: map<string, Route>, a: seq<Route>, b: seq<Route>)
    requires Adds(m, u, a) && Adds(u, v, b)
    ensures Adds(m, v, a + b)
  {
    hide FirstNamed, NoneNamed;
    forall n
      ensures n in m ==> n in v && v[n] == m[n]
      ensures n !in m && n in v ==> FirstNamed(a + b, n, v[n])
      ensures n !in m && n !in v ==> NoneNamed(a + b, n)
    {
      if n in v { FirstOfTwo(a, b, n, v[n]); } else { FirstOfTwo(a, b, n, Route("", [], [])); }
    }
  }

  lemma {:induction false} FirstInAdds(members: seq<Member>, m: map<string, Route>)
    ensures Adds(m, FirstIn(members, m), RoutesOf(members))
  {
    if members == [] {
    } else {
      var x := members[0];
      var u := if x.RouteDecl? && x.route.name !in m then m[x.route.name := x.route] else m;
      var a := if x.RouteDecl? then [x.route] else [];
      assert Adds(m, u, a) by {
        if x.RouteDecl? { assert a[0] == x.route; }
      }
      FirstInAdds(members[1..], u);
      AddsJoin(m, u, FirstIn(members[1..], u), a, RoutesOf(members[1..]));
    }
  }

  lemma {:induction false} FirstRoutesAdds(prog: Program, name: string, m: map<string, Route>)
    ensures Adds(m, FirstRoutes(prog, name, m), Declared(prog, name))
  {
    hide Adds;
    if prog == [] {
      NothingAdded(m);
    } else {
      var mine := prog[0].name == name;
      var u := if mine then FirstIn(prog[0].members, m) else m;
      if mine { FirstInAdds(prog[0].members, m); } else { NothingAdded(m); }
      FirstRoutesAdds(prog[1..], name, u);
      var own := if mine then RoutesOf(prog[0].members) else [];
      AddsJoin(m, u, FirstRoutes(prog[1..], name, u), own, Declared(prog[1..], name));
    }
  }

  lemma NothingAdded(m: map<string, Route>)
    ensures Adds(m, m, [])
  {
  }

  /**
   Execution finds, for every name, the first route of that name in any declaration of the pipeline, and none else.
  */
  lemma FirstRouteFound(prog: Program, name: string, n: string)
    ensures var found := FirstRoutes(prog, name, map[]);
      if n in found then FirstNamed(Declared(prog, name), n, found[n]) else NoneNamed(Declared(prog, name), n)
  {
    FirstRoutesAdds(prog, name, map[]);
  }

  /** A member that is the step, or a parallel group with a branch that is. */
  ghost predicate IsStep(m: Member, step: string, body: seq<Stmt>, plain: bool) {
    if plain then m == Step(step, body)
        else m.Parallel? && exists k :: 0 <= k < |m.steps| && m.steps[k] == Step(step, body)
  }

  ghost predicate HasStep(d: Decl, step: string) {
    exists i, body, plain :: 0 <= i < |d.members| && IsStep(d.members[i], step, body, plain)
  }

  lemma {:induction false} BranchFound(steps: seq<Member>, step: string)
    ensures BranchIn(steps, step).Some? ==>
        exists k :: 0 <= k < |steps| && steps[k] == Step(step, BranchIn(steps, step).value)
    ensures BranchIn(steps, step).None? ==> forall k :: 0 <= k < |steps| ==> !(steps[k].Step? && steps[k].name == step)
  {
    if steps == [] {
    } else {
      BranchFound(steps[1..], step);
      if BranchIn(steps, step).Some? && !(steps[0].Step? && steps[0].name == step) {
        var k :| 0 <= k < |steps[1..]| && steps[1..][k] == Step(step, BranchIn(steps[1..], step).value);
        assert steps[k + 1] == steps[1..][k];
      }
      if BranchIn(steps, step).None? {
        forall k | 0 <= k < |steps| ensures !(steps[k].Step? && steps[k].name == step) {
          if k > 0 { assert steps[1..][k - 1] == steps[k]; }
        }
      }
    }
  }

  ghost predicate InMembers(members: seq<Member>, step: string, f: Found) {
    exists i :: 0 <= i < |members| && IsStep(members[i], step, f.body, f.plain)
  }

  lemma {:induction false} MemberFound(members: seq<Member>, step: string, d: Decl)
    ensures var f := StepIn(members, step, d);
      && (f.Some? ==> f.value.decl == d && InMembers(members, step, f.value))
      && (f.None? ==> forall i, body, plain :: 0 <= i < |members| ==> !IsStep(members[i], step, body, plain))
  {
    if members == [] {
    } else {
      if members[0].Parallel? { BranchFound(members[0].steps, step); }
      MemberFound(members[1..], step, d);
      hide BranchIn;
      var f := StepIn(members, step, d);
      if f.Some? {
        if (members[0].Step? && members[0].name == step)
            || (members[0].Parallel? && BranchIn(members[0].steps, step).Some?) {
          assert IsStep(members[0], step, f.value.body, f.value.plain);
        } else {
          var i :| 0 <= i < |members[1..]| && IsStep(members[1..][i], step, f.value.body, f.value.plain);
          assert members[i + 1] == members[1..][i];
        }
      } else {
        forall i, body, plain | 0 <= i < |members| ensures !IsStep(members[i], step, body, plain) {
          if i > 0 { assert members[1..][i - 1] == members[i]; }
        }
      }
    }
  }

  predicate Searched(d: Decl, pipeline: string) { pipeline == "" || d.name == pipeline }

  /** Declaration k has the step, and no declaration searched before it has. */
  ghost predicate FoundAt(prog: Program, pipeline: string, step: string, f: Found, k: nat) {
    && k < |prog| && prog[k] == f.decl && Searched(prog[k], pipeline) && InMembers(prog[k].members, step, f)
    && forall j :: 0 <= j < k && Searched(prog[j], pipeline) ==> !HasStep(prog[j], step)
  }

  ghost predicate FoundFirst(prog: Program, pipeline: string, step: string, f: Found) {
    exists k: nat :: FoundAt(prog, pipeline, step, f, k)
  }

  /**
   A step is found in the first declaration of the pipeline, or of any one if none is named, that has
   it, as a member of its own or as a branch of a parallel group; it is not found only if none has it.
  */
  lemma {:induction false} StepFound(prog: Program, pipeline: string, step: string)
    ensures match FindStep(prog, pipeline, step)
      case Some(f) => FoundFirst(prog, pipeline, step, f)
      case None => forall j :: 0 <= j < |prog| && Searched(prog[j], pipeline) ==> !HasStep(prog[j], step)
  {
    hide IsStep, StepIn, InMembers, FoundFirst;
    if prog == [] {
    } else {
      var d := prog[0];
      MemberFound(d.members, step, d);
      StepFound(prog[1..], pipeline, step);
      assert forall j :: 0 <= j < |prog| - 1 ==> prog[1..][j] == prog[j + 1];
      match FindStep(prog, pipeline, step)
      case Some(f) =>
        if Searched(d, pipeline) && StepIn(d.members, step, d).Some? {
          FoundHere(prog, pipeline, step, f);
        } else {
          FoundLater(prog, pipeline, step, f);
        }
      case None =>
        forall j | 0 <= j < |prog| && Searched(prog[j], pipeline) ensures !HasStep(prog[j], step) {
          if j > 0 { assert prog[1..][j - 1] == prog[j]; }
        }
    }
  }

  lemma FoundHere(prog: Program, pipeline: string, step: string, f: Found)
    requires prog != [] && prog[0] == f.decl && Searched(prog[0], pipeline) && InMembers(prog[0].members, step, f)
    ensures FoundFirst(prog, pipeline, step, f)
  {
    hide HasStep, InMembers;
    assert FoundAt(prog, pipeline, step, f, 0);
  }

  lemma FoundLater(prog: Program, pipeline: string, step: string, f: Found)
    requires prog != [] && FoundFirst(prog[1..], pipeline, step, f)
    requires Searched(prog[0], pipeline) ==> !HasStep(prog[0], step)
    ensures FoundFirst(prog, pipeline, step, f)
  {
    hide HasStep, InMembers;
    var k: nat :| FoundAt(prog[1..], pipeline, step, f, k);
    forall j | 0 <= j < k + 1 && Searched(prog[j], pipeline) ensures !HasStep(prog[j], step) {
      if j > 0 { assert prog[1..][j - 1] == prog[j]; }
    }
    assert FoundAt(prog, pipeline, step, f, k + 1);
  }

  /** RunStep: a return only ends the step. */
  function RunStep(prog: Program, pipeline: string, step: string, eval: Eval, item: Item, show: Value -> string,
      w: World): Outcome {
    match FindStep(prog, pipeline, step)
    case None => Raised(Plain("pipeline step not found"))
    case Some(f) =>
      var out := ExecBlock(Ctx(eval, item, show, FirstRoutes(prog, f.decl.name, map[])), f.body, w).out;
      if out.Raised? && FindSignal(out.err).Some? && FindSignal(out.err).value.ReturnSignal? then Done else out
  }

  function GotoTarget(out: Outcome): Option<string> {
    if out.Raised? && FindSignal(out.err).Some? && FindSignal(out.err).value.GotoSignal?
    then Some(FindSignal(out.err).value.target) else None
  }

  // ------------------------------------------------------------ every goto is planned

  /** One evaluation that a run made: the expression and the world it met. */
  datatype Evaluation = Evaluation(x: Expr, w: World)

  function ArmEvals(c: Ctx, subject: Value, arms: seq<Arm>, w: World): set<Evaluation>
    decreases |arms|
  {
    if arms == [] then {}
    else
      var arm := arms[0];
      var own := if arm.pattern.None? then {} else {Evaluation(arm.pattern.value, w)};
      var (pattern, w1) := if arm.pattern.None? then (Ok(subject), w) else c.eval(arm.pattern.value, w);
      if pattern.Err? then own
      else if pattern.value != subject then own + ArmEvals(c, subject, arms[1..], w1)
      else own + Just(arm.fail, w1)
  }

  function Just(x: Option<Expr>, w: World): set<Evaluation> { if x.Some? then {Evaluation(x.value, w)} else {} }

  function ArgEvals(c: Ctx, route: Route, args: seq<Arg>, k: nat, w: World, env: map<string, Value>): set<Evaluation>
    requires k <= |args| == |route.params|
    decreases |args| - k
  {
    if k == |args| || args[k].name != "" then {}
    else
      var (v, w1) := c.eval(args[k].value, w);
      {Evaluation(args[k].value, w)}
      + (if v.Err? then {} else ArgEvals(c, route, args, k + 1, w1, env[route.params[k] := v.value]))
  }

  function RouteEvals(c: Ctx, s: Stmt, w: World): set<Evaluation>
    requires s.Goto?
  {
    if s.target !in c.routes || |s.args| != |c.routes[s.target].params| then {}
    else
      var route := c.routes[s.target];
      var (out, w1, env) := BindArgs(c, route, s.args, 0, w, w.env);
      ArgEvals(c, route, s.args, 0, w, w.env)
      + (if out.Raised? || |route.params| != 1 || route.params[0] !in env then {}
         else ArmEvals(c, env[route.params[0]], route.arms, w1.(env := env)))
  }

  /** Every evaluation made while the statement runs. */
  function EvalsOf(c: Ctx, s: Stmt, w: World): set<Evaluation>
    decreases s, 1, 0
  {
    match s
    case Const(_, _, value) => {Evaluation(value, w)}
    case Var(_, name, value) => if name in w.consts then {} else {Evaluation(value, w)}
    case Return(_, result) => Just(result, w)
    case Break(_, reason) => Just(reason, w)
    case Act(_, act) => {Evaluation(act, w)}
    case Goto(_, _, called, _) => if called then RouteEvals(c, s, w) else {}
    case GotoMatch(_, subject, arms) =>
      var (v, w1) := c.eval(subject, w);
      {Evaluation(subject, w)} + (if v.Err? then {} else ArmEvals(c, v.value, arms, w1))
    case If(_, cond, yes, no) =>
      var (v, w1) := c.eval(cond, w);
      {Evaluation(cond, w)}
          + (if v.Err? || !v.value.Bool? then {} else if v.value.b then Evals(c, yes, w1) else Evals(c, no, w1))
    case While(_, cond, body) => WhileEvals(c, cond, body, 0, w)
    case ForIn(_, name, iterable, body) =>
      var (v, w1) := c.eval(iterable, w);
      {Evaluation(iterable, w)}
      + (if v.Err? || !v.value.List? || |v.value.items| > MAX_LOOP_ITERATIONS then {}
         else ForInEvals(c, name, Cells(c, iterable, w, |v.value.items|), body, w1))
    case Try(_, body, errName, handler, last) =>
      var b := ExecBlock(c, body, w);
      Evals(c, body, w)
      + (if Caught(b.out) then Evals(c, handler, Catching(errName, b.out.err, b.w)) else {})
      + Evals(c, last, ExecGuarded(c, s, w).w)
  }

  function Evals(c: Ctx, stmts: seq<Stmt>, w: World): set<Evaluation>
    decreases stmts, 0, 0
  {
    if stmts == [] then {}
    else
      var r := ExecStatement(c, stmts[0], w);
      EvalsOf(c, stmts[0], w) + (if r.out.Raised? then {} else Evals(c, stmts[1..], r.w))
  }

  function WhileEvals(c: Ctx, cond: Expr, body: seq<Stmt>, i: nat, w: World): set<Evaluation>
    decreases body, 1, MAX_LOOP_ITERATIONS - i
  {
    if i >= MAX_LOOP_ITERATIONS then {}
    else
      var (v, w1) := c.eval(cond, w);
      if v.Err? || !v.value.Bool? || !v.value.b then {Evaluation(cond, w)}
      else
        var r := ExecBlock(c, body, w1);
        {Evaluation(cond, w)} + Evals(c, body, w1)
            + (if r.out.Raised? then {} else WhileEvals(c, cond, body, i + 1, r.w))
  }

  function ForInEvals(c: Ctx, name: string, items: seq<Cell>, body: seq<Stmt>, w: World): set<Evaluation>
    decreases body, 1, |items|
  {
    if items == [] then {}
    else
      var w1 := Bind(w, name, items[0](w));
      var r := ExecBlock(c, body, w1);
      Evals(c, body, w1) + (if r.out.Raised? then {} else ForInEvals(c, name, items[1..], body, r.w))
  }

  /** The evaluation ends in a goto to t. */
  predicate Raises(eval: Eval, e: Evaluation, t: string) {
    eval(e.x, e.w).0.Err? && GotoTarget(Raised(eval(e.x, e.w).0.err)) == Some(t)
  }

  /** One of these evaluations does. */
  ghost predicate RaisedBy(eval: Eval, es: set<Evaluation>, t: string) {
    exists e :: e in es && Raises(eval, e, t)
  }

  /** out raises no goto, or one to a target of the list, or one that came out of one of the evaluations. */
  ghost predicate Within(eval: Eval, out: Outcome, targets: seq<string>, xs: set<Evaluation>) {
    GotoTarget(out).Some? ==> GotoTarget(out).value in targets || RaisedBy(eval, xs, GotoTarget(out).value)
  }

  /** The targets of the arms that can be reached: none after a wildcard. */
  function LiveTargets(arms: seq<Arm>): seq<string> {
    if arms == [] then []
    else (if arms[0].fail.None? then [arms[0].target] else [])
         + (if arms[0].pattern.None? then [] else LiveTargets(arms[1..]))
  }

  /** A call of a route that is not refused before its arms are tried. */
  predicate Callable(s: Stmt, found: map<string, Route>) {
    s.Goto? && s.called && s.target in found && |found[s.target].params| == |s.args| == 1 && s.args[0].name == ""
  }

  /** The route a called goto finds when it runs offers no target that inspection did not collect for it. */
  ghost predicate AgreesOn(s: Stmt, found: map<string, Route>, routes: map<string, Route>)
    decreases s, 1
  {
    match s
    case Goto(_, target, _, _) =>
      Callable(s, found) ==> forall t :: t in LiveTargets(found[target].arms) ==> t in TargetsOf(s, routes)
    case If(_, _, yes, no) => Agrees(yes, found, routes) && Agrees(no, found, routes)
    case While(_, _, body) => Agrees(body, found, routes)
    case ForIn(_, _, _, body) => Agrees(body, found, routes)
    case Try(_, body, _, handler, last) =>
      Agrees(body, found, routes) && Agrees(handler, found, routes) && Agrees(last, found, routes)
    case _ => true
  }

  ghost predicate Agrees(stmts: seq<Stmt>, found: map<string, Route>, routes: map<string, Route>)
    decreases stmts, 0
  {
    stmts == [] || (AgreesOn(stmts[0], found, routes) && Agrees(stmts[1..], found, routes))
  }

  /** What an expression raises is raised by that expression. */
  lemma ByExpr(c: Ctx, x: Expr, w: World, targets: seq<string>, xs: set<Evaluation>)
    requires Evaluation(x, w) in xs && c.eval(x, w).0.Err?
    ensures Within(c.eval, Raised(c.eval(x, w).0.err), targets, xs)
  {
    var out := Raised(c.eval(x, w).0.err);
    if GotoTarget(out).Some? {
      assert Raises(c.eval, Evaluation(x, w), GotoTarget(out).value);
    }
  }

  lemma Loosen(eval: Eval, out: Outcome, targets: seq<string>, xs: set<Evaluation>, more: seq<string>,
      ys: set<Evaluation>)
    requires Within(eval, out, targets, xs) && xs <= ys && forall t :: t in targets ==> t in more
    ensures Within(eval, out, more, ys)
  {
    if GotoTarget(out).Some? && GotoTarget(out).value !in targets {
      var e :| e in xs && Raises(eval, e, GotoTarget(out).value);
      assert e in ys;
    }
  }

  lemma {:induction false} LiveIsTarget(arms: seq<Arm>)
    ensures forall t :: t in LiveTargets(arms) ==> t in ArmTargets(arms)
  {
    if arms == [] {
    } else {
      LiveIsTarget(arms[1..]);
    }
  }

  lemma {:induction false} ArmsPlanned(c: Ctx, subject: Value, arms: seq<Arm>, w: World)
    ensures Within(c.eval, ExecGotoArms(c, subject, arms, w).out, LiveTargets(arms), ArmEvals(c, subject, arms, w))
    decreases |arms|
  {
    hide RaisedBy, Within;
    if arms == [] {
      Silent(c.eval, ExecGotoArms(c, subject, arms, w).out, LiveTargets(arms), ArmEvals(c, subject, arms, w));
    } else {
      var arm := arms[0];
      var (pattern, w1) := if arm.pattern.None? then (Ok(subject), w) else c.eval(arm.pattern.value, w);
      if pattern.Err? {
        ByExpr(c, arm.pattern.value, w, LiveTargets(arms), ArmEvals(c, subject, arms, w));
      } else if pattern.value != subject {
        ArmsPlanned(c, subject, arms[1..], w1);
        Loosen(c.eval, ExecGotoArms(c, subject, arms[1..], w1).out,
               LiveTargets(arms[1..]), ArmEvals(c, subject, arms[1..], w1),
               LiveTargets(arms), ArmEvals(c, subject, arms, w));
      } else if arm.fail.Some? {
        FailPlanned(c, arm.fail.value, w1, LiveTargets(arms), ArmEvals(c, subject, arms, w));
      } else {
        Listed(c.eval, arm.target, LiveTargets(arms), ArmEvals(c, subject, arms, w));
      }
    }
  }

  lemma Silent(eval: Eval, out: Outcome, targets: seq<string>, xs: set<Evaluation>)
    requires GotoTarget(out).None?
    ensures Within(eval, out, targets, xs)
  {
  }

  lemma Listed(eval: Eval, t: string, targets: seq<string>, xs: set<Evaluation>)
    requires t in targets
    ensures Within(eval, Raised(Sig(GotoSignal(t))), targets, xs)
  {
  }

  /** An arm that fails raises no goto of its own. */
  lemma FailPlanned(c: Ctx, reason: Expr, w: World, targets: seq<string>, xs: set<Evaluation>)
    requires Evaluation(reason, w) in xs
    ensures var v := c.eval(reason, w).0;
      Within(c.eval, if v.Err? then Raised(v.err) else Raised(Plain(c.show(v.value))), targets, xs)
  {
    if c.eval(reason, w).0.Err? { ByExpr(c, reason, w, targets, xs); }
  }

  lemma {:induction false} ArgsPlanned(c: Ctx, route: Route, args: seq<Arg>, k: nat, w: World, env: map<string, Value>)
    requires k <= |args| == |route.params|
    ensures Within(c.eval, BindArgs(c, route, args, k, w, env).0, [], ArgEvals(c, route, args, k, w, env))
    decreases |args| - k
  {
    if k == |args| || args[k].name != "" {
    } else {
      var (v, w1) := c.eval(args[k].value, w);
      var xs := ArgEvals(c, route, args, k, w, env);
      if v.Err? {
        ByExpr(c, args[k].value, w, [], xs);
      } else {
        var env1 := env[route.params[k] := v.value];
        ArgsPlanned(c, route, args, k + 1, w1, env1);
        Loosen(c.eval, BindArgs(c, route, args, k + 1, w1, env1).0, [], ArgEvals(c, route, args, k + 1, w1, env1), [],
            xs);
      }
    }
  }

  /** What a called goto may raise: only a route call that gets to its arms raises a goto of its own. */
  function RouteTargets(s: Stmt, found: map<string, Route>): seq<string>
    requires s.Goto?
  {
    if Callable(s, found) then LiveTargets(found[s.target].arms) else []
  }

  lemma RoutePlanned(c: Ctx, s: Stmt, w: World)
    requires s.Goto? && s.called
    ensures Within(c.eval, ExecGotoRoute(c, s, w).out, RouteTargets(s, c.routes), RouteEvals(c, s, w))
  {
    hide RaisedBy, Within;
    var ts, xs := RouteTargets(s, c.routes), RouteEvals(c, s, w);
    if s.target in c.routes && |s.args| == |c.routes[s.target].params| {
      var route := c.routes[s.target];
      ArgsPlanned(c, route, s.args, 0, w, w.env);
      var (out, w1, env) := BindArgs(c, route, s.args, 0, w, w.env);
      Loosen(c.eval, out, [], ArgEvals(c, route, s.args, 0, w, w.env), ts, xs);
      if out.Done? {
        if |route.params| == 1 && route.params[0] in env {
          var w2 := w1.(env := env);
          ArmsPlanned(c, env[route.params[0]], route.arms, w2);
          Loosen(c.eval, ExecGotoArms(c, env[route.params[0]], route.arms, w2).out,
                 LiveTargets(route.arms), ArmEvals(c, env[route.params[0]], route.arms, w2), ts, xs);
        } else {
          Silent(c.eval, ExecGotoRoute(c, s, w).out, ts, xs);
        }
      }
    } else {
      Silent(c.eval, ExecGotoRoute(c, s, w).out, ts, xs);
    }
  }

  lemma {:induction false} BlockPlanned(c: Ctx, stmts: seq<Stmt>, w: World, routes: map<string, Route>)
    requires Agrees(stmts, c.routes, routes)
    ensures Within(c.eval, ExecBlock(c, stmts, w).out, Targets(stmts, routes), Evals(c, stmts, w))
    decreases stmts, 0, 0
  {
    hide RaisedBy, Within;
    var ts, xs := Targets(stmts, routes), Evals(c, stmts, w);
    if stmts == [] {
      Silent(c.eval, Done, ts, xs);
    } else {
      StatementPlanned(c, stmts[0], w, routes);
      var r := ExecStatement(c, stmts[0], w);
      Loosen(c.eval, r.out, TargetsOf(stmts[0], routes), EvalsOf(c, stmts[0], w), ts, xs);
      if r.out.Done? {
        BlockPlanned(c, stmts[1..], r.w, routes);
        Loosen(c.eval, ExecBlock(c, stmts[1..], r.w).out, Targets(stmts[1..], routes), Evals(c, stmts[1..], r.w), ts,
            xs);
      }
    }
  }

  lemma WrapKeepsGoto(pos: Pos, out: Outcome)
    ensures GotoTarget(Wrap(pos, out)) == GotoTarget(out)
  {
  }

  lemma {:induction false} StatementPlanned(c: Ctx, s: Stmt, w: World, routes: map<string, Route>)
    requires AgreesOn(s, c.routes, routes)
    ensures Within(c.eval, ExecStatement(c, s, w).out, TargetsOf(s, routes), EvalsOf(c, s, w))
    decreases s, 2, 0
  {
    WrapKeepsGoto(s.pos, ExecStatementBody(c, s, w).out);
    BodyPlanned(c, s, w, routes);
  }

  lemma {:induction false} BodyPlanned(c: Ctx, s: Stmt, w: World, routes: map<string, Route>)
    requires AgreesOn(s, c.routes, routes)
    ensures Within(c.eval, ExecStatementBody(c, s, w).out, TargetsOf(s, routes), EvalsOf(c, s, w))
    decreases s, 1, 0
  {
    hide RaisedBy, Within, Targets, Evals;
    match s
    case Goto(_, _, _, _) => GotoPlanned(c, s, w, routes);
    case GotoMatch(_, _, _) => MatchPlanned(c, s, w, routes);
    case If(_, cond, yes, no) =>
      var (v, w1) := c.eval(cond, w);
      var ts, xs := TargetsOf(s, routes), EvalsOf(c, s, w);
      if v.Err? {
        ByExpr(c, cond, w, ts, xs);
      } else if !v.value.Bool? {
        Silent(c.eval, ExecStatementBody(c, s, w).out, ts, xs);
      } else {
        var branch := if v.value.b then yes else no;
        BlockPlanned(c, branch, w1, routes);
        Loosen(c.eval, ExecBlock(c, branch, w1).out, Targets(branch, routes), Evals(c, branch, w1), ts, xs);
      }
    case While(_, cond, body) => WhilePlanned(c, cond, body, 0, w, routes);
    case ForIn(_, name, iterable, body) =>
      var (v, w1) := c.eval(iterable, w);
      var ts, xs := TargetsOf(s, routes), EvalsOf(c, s, w);
      if v.Err? {
        ByExpr(c, iterable, w, ts, xs);
      } else if v.value.List? && |v.value.items| <= MAX_LOOP_ITERATIONS {
        var cells := Cells(c, iterable, w, |v.value.items|);
        ForInPlanned(c, name, cells, body, w1, routes);
        Loosen(c.eval, ExecForIn(c, name, cells, body, w1).out, Targets(body, routes),
               ForInEvals(c, name, cells, body, w1), ts, xs);
      } else {
        Silent(c.eval, ExecStatementBody(c, s, w).out, ts, xs);
      }
    case Try(_, _, _, _, _) => TryPlanned(c, s, w, routes);
    case _ => OthersPlanned(c, s, w, routes);
  }

  lemma GotoPlanned(c: Ctx, s: Stmt, w: World, routes: map<string, Route>)
    requires s.Goto? && AgreesOn(s, c.routes, routes)
    ensures Within(c.eval, ExecStatementBody(c, s, w).out, TargetsOf(s, routes), EvalsOf(c, s, w))
  {
    hide RaisedBy, Within, ExecGotoRoute, RouteEvals, ArmTargets, LiveTargets;
    if s.called {
      RoutePlanned(c, s, w);
      Loosen(c.eval, ExecGotoRoute(c, s, w).out, RouteTargets(s, c.routes), RouteEvals(c, s, w),
             TargetsOf(s, routes), EvalsOf(c, s, w));
    } else {
      Listed(c.eval, s.target, TargetsOf(s, routes), EvalsOf(c, s, w));
    }
  }

  lemma MatchPlanned(c: Ctx, s: Stmt, w: World, routes: map<string, Route>)
    requires s.GotoMatch?
    ensures Within(c.eval, ExecStatementBody(c, s, w).out, TargetsOf(s, routes), EvalsOf(c, s, w))
  {
    hide RaisedBy, Within, ExecGotoArms, ArmTargets, LiveTargets;
    var (v, w1) := c.eval(s.subject, w);
    LiveIsTarget(s.arms);
    if v.Err? {
      ByExpr(c, s.subject, w, TargetsOf(s, routes), EvalsOf(c, s, w));
    } else {
      ArmsPlanned(c, v.value, s.arms, w1);
      Loosen(c.eval, ExecGotoArms(c, v.value, s.arms, w1).out, LiveTargets(s.arms), ArmEvals(c, v.value, s.arms, w1),
             TargetsOf(s, routes), EvalsOf(c, s, w));
    }
  }

  lemma SignalPlanned(c: Ctx, e: Option<Expr>, signal: Value -> Signal, w: World, xs: set<Evaluation>)
    requires Just(e, w) <= xs && forall v :: !signal(v).GotoSignal?
    ensures Within(c.eval, ExecSignal(c, e, signal, w).out, [], xs)
  {
    if e.Some? && c.eval(e.value, w).0.Err? { ByExpr(c, e.value, w, [], xs); }
  }

  lemma OthersPlanned(c: Ctx, s: Stmt, w: World, routes: map<string, Route>)
    requires s.Const? || s.Var? || s.Return? || s.Break? || s.Act?
    ensures Within(c.eval, ExecStatementBody(c, s, w).out, TargetsOf(s, routes), EvalsOf(c, s, w))
  {
    hide RaisedBy;
    var xs := EvalsOf(c, s, w);
    match s
    case Const(_, _, value) => if c.eval(value, w).0.Err? { ByExpr(c, value, w, [], xs); }
    case Var(_, name, value) => if name !in w.consts && c.eval(value, w).0.Err? { ByExpr(c, value, w, [], xs); }
    case Return(_, e) => SignalPlanned(c, e, v => ReturnSignal(v), w, xs);
    case Break(_, e) => SignalPlanned(c, e, v => BreakSignal(v), w, xs);
    case Act(_, act) => if c.eval(act, w).0.Err? { ByExpr(c, act, w, [], xs); }
  }

  lemma {:induction false} TryPlanned(c: Ctx, s: Stmt, w: World, routes: map<string, Route>)
    requires s.Try? && AgreesOn(s, c.routes, routes)
    ensures Within(c.eval, ExecStatementBody(c, s, w).out, TargetsOf(s, routes), EvalsOf(c, s, w))
    decreases s, 0, 0
  {
    hide RaisedBy, Within, Targets, Evals;
    var ts, xs := TargetsOf(s, routes), EvalsOf(c, s, w);
    var b, g := ExecBlock(c, s.body, w), ExecGuarded(c, s, w);
    BlockPlanned(c, s.body, w, routes);
    Loosen(c.eval, b.out, Targets(s.body, routes), Evals(c, s.body, w), ts, xs);
    if Caught(b.out) {
      var h := ExecBlock(c, s.handler, Catching(s.errName, b.out.err, b.w));
      BlockPlanned(c, s.handler, Catching(s.errName, b.out.err, b.w), routes);
      Loosen(c.eval, h.out, Targets(s.handler, routes), Evals(c, s.handler, Catching(s.errName, b.out.err, b.w)), ts,
          xs);
    }
    BlockPlanned(c, s.last, g.w, routes);
    Loosen(c.eval, ExecBlock(c, s.last, g.w).out, Targets(s.last, routes), Evals(c, s.last, g.w), ts, xs);
  }

  lemma {:induction false} WhilePlanned(c: Ctx, cond: Expr, body: seq<Stmt>, i: nat, w: World,
      routes: map<string, Route>)
    requires Agrees(body, c.routes, routes)
    ensures Within(c.eval, ExecWhile(c, cond, body, i, w).out, Targets(body, routes), WhileEvals(c, cond, body, i, w))
    decreases body, 1, MAX_LOOP_ITERATIONS - i
  {
    hide RaisedBy, Within, Targets, Evals;
    var ts, xs := Targets(body, routes), WhileEvals(c, cond, body, i, w);
    var (v, w1) := c.eval(cond, w);
    if i < MAX_LOOP_ITERATIONS && v.Err? {
      ByExpr(c, cond, w, ts, xs);
    } else if i < MAX_LOOP_ITERATIONS && v.value.Bool? && v.value.b {
      var r := ExecBlock(c, body, w1);
      BlockPlanned(c, body, w1, routes);
      Loosen(c.eval, r.out, ts, Evals(c, body, w1), ts, xs);
      if r.out.Done? {
        WhilePlanned(c, cond, body, i + 1, r.w, routes);
        Loosen(c.eval, ExecWhile(c, cond, body, i + 1, r.w).out, ts, WhileEvals(c, cond, body, i + 1, r.w), ts, xs);
      }
    } else {
      Silent(c.eval, ExecWhile(c, cond, body, i, w).out, ts, xs);
    }
  }

  lemma {:induction false} ForInPlanned(c: Ctx, name: string, items: seq<Cell>, body: seq<Stmt>, w: World,
      routes: map<string, Route>)
    requires Agrees(body, c.routes, routes)
    ensures Within(c.eval, ExecForIn(c, name, items, body, w).out, Targets(body, routes),
        ForInEvals(c, name, items, body, w))
    decreases body, 1, |items|
  {
    hide RaisedBy, Within, Targets, Evals;
    var ts, xs := Targets(body, routes), ForInEvals(c, name, items, body, w);
    if items == [] {
      Silent(c.eval, Done, ts, xs);
    } else {
      var w1 := Bind(w, name, items[0](w));
      var r := ExecBlock(c, body, w1);
      BlockPlanned(c, body, w1, routes);
      Loosen(c.eval, r.out, ts, Evals(c, body, w1), ts, xs);
      if r.out.Done? {
        ForInPlanned(c, name, items[1..], body, r.w, routes);
        Loosen(c.eval, ExecForIn(c, name, items[1..], body, r.w).out, ts, ForInEvals(c, name, items[1..], body, r.w),
            ts, xs);
      }
    }
  }

  // ------------------------------------------------------------ the condition is exact for each call

  /** Whatever expressions do, the call itself raises only what was collected for it. */
  ghost predicate CallSound(s: Stmt, found: map<string, Route>, routes: map<string, Route>) {
    forall eval: Eval, item: Item, show: Value -> string, w: World ::
      Within(eval, ExecStatement(Ctx(eval, item, show, found), s, w).out, TargetsOf(s, routes),
          EvalsOf(Ctx(eval, item, show, found), s, w))
  }

  lemma AgreedIsSound(s: Stmt, found: map<string, Route>, routes: map<string, Route>)
    requires s.Goto? && s.called && AgreesOn(s, found, routes)
    ensures CallSound(s, found, routes)
  {
    forall eval: Eval, item: Item, show: Value -> string, w: World
      ensures var c := Ctx(eval, item, show, found);
        Within(eval, ExecStatement(c, s, w).out, TargetsOf(s, routes), EvalsOf(c, s, w))
    {
      StatementPlanned(Ctx(eval, item, show, found), s, w, routes);
    }
  }

  /** An evaluator that steers the call to one of its live arms shows that its target was collected. */
  lemma SoundIsAgreed(s: Stmt, found: map<string, Route>, routes: map<string, Route>, t: string)
    requires s.Goto? && s.called && CallSound(s, found, routes)
    requires Callable(s, found) && t in LiveTargets(found[s.target].arms)
    ensures t in TargetsOf(s, routes)
  {
    var k := LiveArm(found[s.target].arms, t);
    var c := Ctx(Steer(k), (x, w, i, u) => Nil, v => "", found);
    Steered(c, s, k, t);
    hide ExecStatement, EvalsOf, TargetsOf, LiveTargets;
    assert Within(c.eval, ExecStatement(Ctx(c.eval, c.item, c.show, found), s, STEER).out, TargetsOf(s, routes),
                  EvalsOf(Ctx(c.eval, c.item, c.show, found), s, STEER));
  }

  /** A called goto is planned for if and only if its live targets are. */
  lemma CallSoundIff(s: Stmt, found: map<string, Route>, routes: map<string, Route>)
    requires s.Goto? && s.called
    ensures CallSound(s, found, routes) <==> AgreesOn(s, found, routes)
  {
    hide CallSound;
    if AgreesOn(s, found, routes) { AgreedIsSound(s, found, routes); }
    if CallSound(s, found, routes) && Callable(s, found) {
      forall t | t in LiveTargets(found[s.target].arms) ensures t in TargetsOf(s, routes) {
        SoundIsAgreed(s, found, routes, t);
      }
    }
  }

  lemma {:induction false} LiveArm(arms: seq<Arm>, t: string) returns (k: nat)
    requires t in LiveTargets(arms)
    ensures k < |arms| && arms[k].fail.None? && arms[k].target == t && forall j :: 0 <= j < k ==> arms[j].pattern.Some?
  {
    if arms[0].fail.None? && arms[0].target == t {
      k := 0;
    } else {
      var j := LiveArm(arms[1..], t);
      k := j + 1;
    }
  }

  const STEER := World(map[], {}, 0)

  /**
   Counts evaluations in the world; the first one and the one of pattern k give the same value, the others another.
  */
  function Steer(k: nat): Eval {
    (x: Expr, w: World) => (Ok(Other(if w.rest == 0 || w.rest == k + 1 then 0 else 1)), w.(rest := w.rest + 1))
  }

  lemma {:induction false} SteeredArms(c: Ctx, arms: seq<Arm>, j: nat, k: nat, w: World)
    requires c.eval == Steer(k) && j <= k < |arms| && arms[k].fail.None? && w.rest == j + 1
    requires forall i :: 0 <= i < k ==> arms[i].pattern.Some?
    ensures ExecGotoArms(c, Other(0), arms[j..], w).out == Raised(Sig(GotoSignal(arms[k].target)))
    decreases k - j
  {
    assert arms[j..][0] == arms[j] && arms[j..][1..] == arms[j + 1..];
    if j == k {
    } else {
      assert c.eval(arms[j].pattern.value, w) == (Ok(Other(1)), w.(rest := w.rest + 1));
      SteeredArms(c, arms, j + 1, k, w.(rest := w.rest + 1));
    }
  }

  lemma Steered(c: Ctx, s: Stmt, k: nat, t: string)
    requires Callable(s, c.routes) && c.eval == Steer(k)
    requires var arms := c.routes[s.target].arms;
      k < |arms| && arms[k].fail.None? && arms[k].target == t && forall j :: 0 <= j < k ==> arms[j].pattern.Some?
    ensures ExecStatement(c, s, STEER).out == Raised(Sig(GotoSignal(t)))
    ensures forall x, w :: c.eval(x, w).0.Ok?
  {
    var route := c.routes[s.target];
    var w1 := STEER.(rest := 1);
    var env: map<string, Value> := map[route.params[0] := Other(0)];
    assert c.eval(s.args[0].value, STEER) == (Ok(Other(0)), w1);
    assert BindArgs(c, route, s.args, 1, w1, env) == (Done, w1, env);
    assert BindArgs(c, route, s.args, 0, STEER, map[]) == (Done, w1, env) by { assert STEER.env == map[]; }
    SteeredArms(c, route.arms, 0, k, w1.(env := env));
    assert route.arms[0..] == route.arms;
  }

  // ------------------------------------------------------------ a whole program

  lemma {:induction false} EdgeIn(step: string, targets: seq<string>, t: string)
    requires t in targets
    ensures Edge(step, t) in EdgesFrom(step, targets)
  {
    if targets[0] == t {
    } else {
      EdgeIn(step, targets[1..], t);
    }
  }

  lemma {:induction false} StepEdges(members: seq<Member>, step: string, d: Decl, routes: map<string, Route>, t: string)
    requires StepIn(members, step, d).Some? && StepIn(members, step, d).value.plain
    requires t in Targets(StepIn(members, step, d).value.body, routes)
    ensures StepIn(members, step, d).value.decl == d && Edge(step, t) in DeclEdges(members, routes)
  {
    if members[0].Step? && members[0].name == step {
      EdgeIn(step, Targets(members[0].body, routes), t);
    } else {
      StepEdges(members[1..], step, d, routes, t);
    }
  }

  lemma {:induction false} FoundInDecl(members: seq<Member>, step: string, d: Decl)
    requires StepIn(members, step, d).Some?
    ensures StepIn(members, step, d).value.decl == d
  {
    if (members[0].Step? && members[0].name == step)
        || (members[0].Parallel? && BranchIn(members[0].steps, step).Some?) {
    } else {
      FoundInDecl(members[1..], step, d);
    }
  }

  lemma {:induction false} StepCollected(prog: Program, pipeline: string, step: string, t: string)
    requires FindStep(prog, pipeline, step).Some? && FindStep(prog, pipeline, step).value.plain
    requires var f := FindStep(prog, pipeline, step).value; t in Targets(f.body, LastRoutes(f.decl.members))
    ensures Edge(step, t) in Collected(prog, FindStep(prog, pipeline, step).value.decl.name)
  {
    var d := prog[0];
    if (pipeline == "" || d.name == pipeline) && StepIn(d.members, step, d).Some? {
      FoundInDecl(d.members, step, d);
      StepEdges(d.members, step, d, LastRoutes(d.members), t);
    } else {
      StepCollected(prog[1..], pipeline, step, t);
    }
  }

  /**
   The plan is sound for statements: a goto that a plain step raises, through any nesting of them, is
   an edge inspection lists for that step, provided the routes it calls agree with those inspected,
   or it came out of an evaluation that the step made.
  */
  lemma PlanSound(prog: Program, pipeline: string, step: string, eval: Eval, item: Item, show: Value -> string,
      w: World)
    requires FindStep(prog, pipeline, step).Some?
    requires var f := FindStep(prog, pipeline, step).value;
      f.plain && Agrees(f.body, FirstRoutes(prog, f.decl.name, map[]), LastRoutes(f.decl.members))
    ensures var out := RunStep(prog, pipeline, step, eval, item, show, w);
      GotoTarget(out).Some? ==>
        var f := FindStep(prog, pipeline, step).value;
        || Edge(step, GotoTarget(out).value) in Collected(prog, f.decl.name)
        || RaisedBy(eval, Evals(Ctx(eval, item, show, FirstRoutes(prog, f.decl.name, map[])), f.body, w),
            GotoTarget(out).value)
  {
    hide ExecBlock, Evals, Targets, Collected, FindStep;
    var f := FindStep(prog, pipeline, step).value;
    var c := Ctx(eval, item, show, FirstRoutes(prog, f.decl.name, map[]));
    BlockPlanned(c, f.body, w, LastRoutes(f.decl.members));
    var out := ExecBlock(c, f.body, w).out;
    if GotoTarget(out).Some? && GotoTarget(out).value in Targets(f.body, LastRoutes(f.decl.members)) {
      StepCollected(prog, pipeline, step, GotoTarget(out).value);
    }
  }

  // ------------------------------------------------------------ gotos inside closures and tool methods

  /**
   invokeCallable on a statement block, in the environment of the call: only a return is taken up. A
   tool method has constants of its own, a closure those of the context it was written in. The
   caller's own variables are as they were.
  */
  function CallBlock(c: Ctx, call: Call, w: World): (Result, World) {
    var r := ExecBlock(c, call.block, Inside(call, w));
    var result :=
      if r.out.Done? then Ok(Nil)
      else if FindSignal(r.out.err).Some? && FindSignal(r.out.err).value.ReturnSignal?
      then Ok(FindSignal(r.out.err).value.value)
      else Err(r.out.err);
    (result, World(w.env, if call.consts.Some? then w.consts else r.w.consts, r.w.rest))
  }

  /** A call that has bound its parameters. */
  datatype Call = Call(env: map<string, Value>, consts: Option<set<string>>, block: seq<Stmt>)

  /** The world the block of the call starts in. */
  function Inside(call: Call, w: World): World {
    World(call.env, if call.consts.Some? then call.consts.value else w.consts, w.rest)
  }

  /** So a goto inside the block, planned nowhere, leaves the expression that made the call. */
  lemma CallRaises(c: Ctx, call: Call, w: World, t: string)
    ensures var (v, w1) := CallBlock(c, call, w);
      && w1.env == w.env && (call.consts.Some? ==> w1.consts == w.consts)
      && ((v.Err? && GotoTarget(Raised(v.err)) == Some(t))
          <==> GotoTarget(ExecBlock(c, call.block, Inside(call, w)).out) == Some(t))
  {
  }

  /** A call comes to nil if its block runs through, to the value of a return, and to the error of anything else. */
  lemma CallReturns(c: Ctx, call: Call, w: World)
    ensures var out, v := ExecBlock(c, call.block, Inside(call, w)).out, CallBlock(c, call, w).0;
      match out
      case Done => v == Ok(Nil)
      case Raised(e) =>
        match FindSignal(e)
        case Some(ReturnSignal(x)) => v == Ok(x)
        case _ => v == Err(e)
  {
  }

  /** A step that returns is over; one that ends in any other way ends as its block does, and one not found fails. */
  lemma StepEnds(prog: Program, pipeline: string, step: string, eval: Eval, item: Item, show: Value -> string, w: World)
    ensures var out := RunStep(prog, pipeline, step, eval, item, show, w);
      match FindStep(prog, pipeline, step)
      case None => out.Raised? && FindSignal(out.err).None?
      case Some(f) =>
        var c := Ctx(eval, item, show, FirstRoutes(prog, f.decl.name, map[]));
        match ExecBlock(c, f.body, w).out
        case Done => out == Done
        case Raised(e) =>
          match FindSignal(e)
          case Some(ReturnSignal(_)) => out == Done
          case _ => out == Raised(e)
  {
  }

  /** A workflow with the one step `s`, which evaluates the expression CALLS and does nothing else. */
  const CALLS := Expr(0)
  const CALLER := Decl("p", [Step("s", [Act("f:1:1", CALLS)])])

  /**
   The plan misses such gotos: the step jumps exactly where the block of the function it calls does,
   and inspection lists no edge at all.
  */
  lemma CalledGotoEscapes(eval: Eval, item: Item, show: Value -> string, w: World, c: Ctx, call: Call)
    requires eval(CALLS, w) == CallBlock(c, call, w)
    ensures GotoTarget(RunStep([CALLER], "p", "s", eval, item, show, w))
            == GotoTarget(ExecBlock(c, call.block, Inside(call, w)).out)
    ensures Collected([CALLER], "p") == []
  {
    var act := Act("f:1:1", CALLS);
    var body := [act];
    assert FindStep([CALLER], "p", "s") == Some(Found(body, CALLER, true));
    var d := Ctx(eval, item, show, FirstRoutes([CALLER], "p", map[]));
    ActOnly(d, act, w);
    WrapKeepsGoto(act.pos, ExecStatementBody(d, act, w).out);
    assert TargetsOf(act, LastRoutes(CALLER.members)) == [] && Targets(body[1..], LastRoutes(CALLER.members)) == [];
    assert DeclEdges(CALLER.members[1..], LastRoutes(CALLER.members)) == [];
    assert Collected([CALLER][1..], "p") == [];
  }

  lemma ActOnly(c: Ctx, s: Stmt, w: World)
    requires s.Act?
    ensures ExecBlock(c, [s], w).out == ExecStatement(c, s, w).out
  {
    var r := ExecStatement(c, s, w);
    assert ExecBlock(c, [s][1..], r.w).out == Done;
  }

  // ------------------------------------------------------------ when the routes agree

  ghost predicate UniqueRoutes(members: seq<Member>) {
    forall i, j :: 0 <= i < j < |members| && members[i].RouteDecl? && members[j].RouteDecl? ==>
      members[i].route.name != members[j].route.name
  }

  lemma {:induction false} FirstInSnoc(members: seq<Member>, x: Member, m: map<string, Route>)
    ensures FirstIn(members + [x], m) == FirstIn([x], FirstIn(members, m))
  {
    if members == [] {
      assert members + [x] == [x];
    } else {
      assert (members + [x])[1..] == members[1..] + [x];
      var r := members[0];
      var next := if r.RouteDecl? && r.route.name !in m then m[r.route.name := r.route] else m;
      FirstInSnoc(members[1..], x, next);
    }
  }

  lemma {:induction false} LastRoutesNames(members: seq<Member>)
    ensures forall n :: n in LastRoutes(members) ==>
      exists i :: 0 <= i < |members| && members[i].RouteDecl? && members[i].route.name == n
  {
    if members == [] {
    } else {
      var init := members[..|members| - 1];
      LastRoutesNames(init);
      forall n | n in LastRoutes(members)
        ensures exists i :: 0 <= i < |members| && members[i].RouteDecl? && members[i].route.name == n
      {
        if n in LastRoutes(init) {
          var i :| 0 <= i < |init| && init[i].RouteDecl? && init[i].route.name == n;
          assert members[i] == init[i];
        } else {
          assert members[|members| - 1].route.name == n;
        }
      }
    }
  }

  lemma {:induction false} FirstIsLast(members: seq<Member>)
    requires UniqueRoutes(members)
    ensures FirstIn(members, map[]) == LastRoutes(members)
  {
    if members == [] {
    } else {
      var init, x := members[..|members| - 1], members[|members| - 1];
      assert members == init + [x];
      FirstIsLast(init);
      FirstInSnoc(init, x, map[]);
      LastRoutesNames(init);
      assert [x][1..] == [];
    }
  }

  lemma {:induction false} OtherDecls(prog: Program, name: string, m: map<string, Route>)
    requires forall d :: d in prog ==> d.name != name
    ensures FirstRoutes(prog, name, m) == m
  {
    if prog == [] {
    } else {
      OtherDecls(prog[1..], name, m);
    }
  }

  lemma {:induction false} OnlyDecl(before: Program, d: Decl, after: Program, m: map<string, Route>)
    requires forall e :: e in before || e in after ==> e.name != d.name
    ensures FirstRoutes(before + [d] + after, d.name, m) == FirstIn(d.members, m)
  {
    var prog := before + [d] + after;
    if before == [] {
      assert prog[0] == d && prog[1..] == after;
      OtherDecls(after, d.name, FirstIn(d.members, m));
    } else {
      assert prog[0] == before[0] && prog[1..] == before[1..] + [d] + after;
      OnlyDecl(before[1..], d, after, m);
    }
  }

  lemma {:induction false} AgreesWithItself(stmts: seq<Stmt>, m: map<string, Route>)
    ensures Agrees(stmts, m, m)
    decreases stmts, 0
  {
    if stmts == [] {
    } else {
      AgreesOnItself(stmts[0], m);
      AgreesWithItself(stmts[1..], m);
    }
  }

  lemma {:induction false} AgreesOnItself(s: Stmt, m: map<string, Route>)
    ensures AgreesOn(s, m, m)
    decreases s, 1
  {
    match s
    case Goto(_, target, _, _) => if target in m { LiveIsTarget(m[target].arms); }
    case If(_, _, yes, no) => AgreesWithItself(yes, m); AgreesWithItself(no, m);
    case While(_, _, body) => AgreesWithItself(body, m);
    case ForIn(_, _, _, body) => AgreesWithItself(body, m);
    case Try(_, body, _, handler, last) =>
      AgreesWithItself(body, m);
      AgreesWithItself(handler, m);
      AgreesWithItself(last, m);
    case _ =>
  }

  /** They do when the pipeline is declared once and names each of its routes once. */
  lemma UniqueNamesAgree(before: Program, d: Decl, after: Program, stmts: seq<Stmt>)
    requires forall e :: e in before || e in after ==> e.name != d.name
    requires UniqueRoutes(d.members)
    ensures Agrees(stmts, FirstRoutes(before + [d] + after, d.name, map[]), LastRoutes(d.members))
  {
    OnlyDecl(before, d, after, map[]);
    FirstIsLast(d.members);
    AgreesWithItself(stmts, LastRoutes(d.members));
  }

  const FIRST := RouteDecl(Route("r", ["x"], [Arm(None, None, "a")]))
  const SECOND := RouteDecl(Route("r", ["x"], [Arm(None, None, "b")]))
  const CALL := Goto("f:1:1", "r", true, [Arg("", Expr(0))])
  const TWICE := Decl("p", [FIRST, SECOND, Step("s", [CALL])])

  /**
   With a route declared twice they do not: execution takes the first, inspection the last, and
   the goto that runs is not in the plan, whatever the argument evaluates to.
  */
  lemma DuplicateRouteEscapes(eval: Eval, item: Item, show: Value -> string, w: World)
    requires eval(Expr(0), w).0.Ok?
    ensures GotoTarget(RunStep([TWICE], "p", "s", eval, item, show, w)) == Some("a")
    ensures Edge("s", "a") !in Collected([TWICE], "p")
  {
    FindsFirst();
    var routes := FirstRoutes([TWICE], "p", map[]);
    TakesFirst(Ctx(eval, item, show, routes), w);
    InspectsLast();
  }

  lemma FindsFirst()
    ensures FirstRoutes([TWICE], "p", map[]) == map["r" := FIRST.route]
    ensures FindStep([TWICE], "p", "s") == Some(Found([CALL], TWICE, true))
  {
    var members, last: seq<Member> := TWICE.members, [Step("s", [CALL])];
    var m := map["r" := FIRST.route];
    assert members[1..] == [SECOND] + last && members[1..][1..] == last && last[1..] == [];
    assert FirstIn(last, m) == m;
    assert FirstIn(members[1..], m) == m;
    assert FirstIn(members, map[]) == m;
    assert FirstRoutes([], "p", m) == m;
    assert StepIn(last, "s", TWICE) == Some(Found([CALL], TWICE, true));
    assert StepIn(members[1..], "s", TWICE) == StepIn(last, "s", TWICE);
  }

  lemma TakesFirst(c: Ctx, w: World)
    requires "r" in c.routes && c.routes["r"] == FIRST.route && c.eval(Expr(0), w).0.Ok?
    ensures ExecBlock(c, [CALL], w).out == Raised(Sig(GotoSignal("a")))
  {
    var (v, w1) := c.eval(Expr(0), w);
    var env := w.env["x" := v.value];
    assert BindArgs(c, FIRST.route, CALL.args, 1, w1, env) == (Done, w1, env);
    assert BindArgs(c, FIRST.route, CALL.args, 0, w, w.env) == (Done, w1, env);
    assert ExecGotoArms(c, env["x"], FIRST.route.arms, w1.(env := env)).out == Raised(Sig(GotoSignal("a")));
    assert ExecGotoRoute(c, CALL, w).out == Raised(Sig(GotoSignal("a")));
  }

  lemma InspectsLast()
    ensures Collected([TWICE], "p") == [Edge("s", "b")]
  {
    var members, last: seq<Member> := TWICE.members, [Step("s", [CALL])];
    var m := map["r" := SECOND.route];
    assert members[..2] == [FIRST, SECOND] && [FIRST, SECOND][..1] == [FIRST] && [FIRST][..0] == [];
    assert LastRoutes([FIRST]) == map["r" := FIRST.route];
    assert LastRoutes([FIRST, SECOND]) == m;
    assert LastRoutes(members) == m;
    assert ArmTargets([Arm(None, None, "b")][1..]) == [];
    assert ArmTargets(SECOND.route.arms) == ["b"];
    assert TargetsOf(CALL, m) == ["b"] && Targets([CALL][1..], m) == [];
    assert Targets([CALL], m) == ["b"];
    assert EdgesFrom("s", ["b"][1..]) == [] && EdgesFrom("s", ["b"]) == [Edge("s", "b")];
    assert members[1..] == [SECOND] + last && members[1..][1..] == last && last[1..] == [];
    assert DeclEdges(last, m) == [Edge("s", "b")];
    assert DeclEdges(members[1..], m) == DeclEdges(last, m);
    assert DeclEdges(members, m) == DeclEdges(members[1..], m);
    assert Collected([TWICE][1..], "p") == [];
  }
}
