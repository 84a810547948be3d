/**
 * The specification of the evaluator (SymbolicJSON.proc and the helpers it dispatches to), as
 * functions. Evaluation is bounded by `fuel`: the trampoline in proc has no bound of its own.
 * The fresh-name counter is threaded through as a number, and every result carries its new
 * value.
 */
module Eval {
  import opened Errors
  import opened Terms
  import opened Ast
  import opened Lookup
  import opened Intern
  import opened Cases
  import opened Fresh

  /**
   * The services the evaluator calls but that are not part of this model: the reducer (for
   * expressions and for types) and the lookup of a constructor's owning type
   * (scope_name followed by get_constructor(...)['typename']).
   */
  datatype Context = Context(reduce: Expr -> Expr, reduceType: TypeExpr -> TypeExpr,
                             ownerType: (string, string) -> string)

  /** An evaluator's configuration: its context, base_types and bool_sort. */
  datatype Env = Env(ctx: Context, base: map<string, Builder>, boolSort: Option<Sort>)

  /** A finished evaluation: final state, final value, counter afterwards. */
  datatype Out = Out(st: Term, val: Term, ctr: nat)

  /** One trampoline step: the state and the expression the loop continues with. */
  datatype Step = Step(st: Term, next: Expr, ctr: nat)

  datatype ArgsOut = ArgsOut(st: Term, vals: seq<Term>, ctr: nat)

  datatype ArmsOut = ArmsOut(outs: seq<ArmOut>, ctr: nat)

  /** proc(procexpr, state): reduce once, then run the trampoline. */
  function Proc(env: Env, fuel: nat, e: Expr, st: Term, ctr: nat): (r: Result<Out>)
    ensures r.Ok? ==> r.value.ctr >= ctr
    decreases fuel, 0, 0
  {
    if fuel == 0 then Err(OutOfFuel) else Loop(env, fuel - 1, env.ctx.reduce(e), st, ctr)
  }

  /** The `while True` loop of proc: stop at a value, otherwise take one step and go on. */
  function Loop(env: Env, fuel: nat, e: Expr, st: Term, ctr: nat): (r: Result<Out>)
    ensures r.Ok? ==> r.value.ctr >= ctr
    decreases fuel, 4, 0
  {
    if e.Value? then Ok(Out(st, e.t, ctr))
    else if fuel == 0 then Err(OutOfFuel)
    else
      var s :- Dispatch(env, fuel - 1, e, st, ctr);
      Loop(env, fuel - 1, s.next, s.st, s.ctr)
  }

  /** One pass of the loop body: dispatch on the kind of expression. */
  function Dispatch(env: Env, fuel: nat, e: Expr, st: Term, ctr: nat): (r: Result<Step>)
    requires !e.Value?
    ensures r.Ok? ==> r.value.ctr >= ctr
    decreases fuel, 5, 0
  {
    match e
    case Apply(func, args) => ProcApply(env, fuel, func, args, st, ctr)
    case Case(scrut, arms) => ProcCase(env, fuel, scrut, arms, st, ctr)
    case Ctor(mod, name, ty, args) =>
      if env.ctx.ownerType(mod, name) == "proc" then ProcCtorProc(env, fuel, name, args, st, ctr)
      else ProcCtorOther(env, fuel, name, ty, args, st, ctr)
    case _ => Err(UnsupportedExpressionKind)
  }

  /**
   * The solver's `m[k]`: a select on an array, the k-th element of a sequence; any other operand
   * has no indexing and is rejected.
   */
  function Index(m: Term, k: Term): (r: Result<Term>)
    ensures r.Ok? <==> SortOf(m).Some? && (SortOf(m).value.ArraySort? || SortOf(m).value.SeqSort?)
    ensures r.Ok? && SortOf(m).value.ArraySort? ==> r.value == Select(m, k) && SortOf(r.value) == Some(SortOf(m).value.rng)
    ensures r.Ok? && SortOf(m).value.SeqSort? ==> r.value == Nth(m, k) && SortOf(r.value) == Some(SortOf(m).value.elem)
  {
    match SortOf(m)
    case Some(ArraySort(_, _)) => Ok(Select(m, k))
    case Some(SeqSort(_)) => Ok(Nth(m, k))
    case _ => Err(SolverRejected("indexing a term that is neither an array nor a sequence"))
  }

  /** z3.Length: only a sequence has a length. */
  function SeqLength(b: Term): (r: Result<Term>)
    ensures r.Ok? <==> SortOf(b).Some? && SortOf(b).value.SeqSort?
    ensures r.Ok? ==> r.value == Length(b) && SortOf(r.value) == Some(IntSort)
  {
    match SortOf(b)
    case Some(SeqSort(_)) => Ok(Length(b))
    case _ => Err(SolverRejected("the length of a term that is not a sequence"))
  }

  /**
   * proc_apply: only the two special functions can be called. gmap_lookup evaluates args[0]
   * (the key) and then args[1] (the map); len_buf evaluates its one argument.
   */
  function ProcApply(env: Env, fuel: nat, func: Expr, args: seq<Expr>, st: Term, ctr: nat): (r: Result<Step>)
    ensures r.Ok? ==> r.value.ctr >= ctr
    decreases fuel, 1, 0
  {
    match env.ctx.reduce(func)
    case Special(id) =>
      if id == "gmap_lookup" then
        if |args| == 0 then Err(MissingArgument)
        else
          var k :- Proc(env, fuel, args[0], st, ctr);
          if |args| < 2 then Err(MissingArgument)
          else
            var m :- Proc(env, fuel, args[1], k.st, k.ctr);
            var v :- Index(m.val, k.val);
            Ok(Step(m.st, Value(v), m.ctr))
      else if id == "len_buf" then
        if |args| == 0 then Err(MissingArgument)
        else
          var b :- Proc(env, fuel, args[0], st, ctr);
          var n :- SeqLength(b.val);
          Ok(Step(b.st, Value(n), b.ctr))
      else Err(UnknownBuiltin(id))
    case _ => Err(UnsupportedCallee)
  }

  /** victim.sort(). */
  function VictimSort(victim: Term): Result<Sort> {
    match SortOf(victim)
    case Some(s) => Ok(s)
    case None => Err(SolverRejected("the scrutinee has no sort"))
  }

  /** proc_case: evaluate the scrutinee, then the arms from last to first, then merge. */
  function ProcCase(env: Env, fuel: nat, scrut: Expr, arms: seq<Arm>, st: Term, ctr: nat): (r: Result<Step>)
    ensures r.Ok? ==> r.value.ctr >= ctr && r.value.next.Value?
    decreases fuel, 3, 0
  {
    var v :- Proc(env, fuel, scrut, st, ctr);
    var rs :- ArmsFrom(env, fuel, v.val, arms, 0, v.st, v.ctr);
    var merged := Merge(rs.outs);
    Ok(Step(merged.0, Value(merged.1), rs.ctr))
  }

  /**
   * The arms from position k on, evaluated from the last to the first (so the counter flows in
   * that order), every body from the same state st; the results are listed in source order.
   */
  function ArmsFrom(env: Env, fuel: nat, victim: Term, arms: seq<Arm>, k: nat, st: Term, ctr: nat)
    : (r: Result<ArmsOut>)
    requires k <= |arms|
    ensures r.Ok? ==> r.value.ctr >= ctr && |r.value.outs| == |arms| - k
    decreases fuel, 2, |arms| - k
  {
    if k == |arms| then Ok(ArmsOut([], ctr))
    else
      var rest :- ArmsFrom(env, fuel, victim, arms, k + 1, st, ctr);
      var acc := Merge(rest.outs);
      ArmJoin(ArmEval(env, fuel, victim, arms[k], acc.0 == Null, st, rest.ctr), acc, rest.outs)
  }

  /**
   * The end of one pass of the loop: the arm's result joins the results of the later arms,
   * unless merging it onto their accumulator acc would give If a None operand.
   */
  function ArmJoin(a: Result<(ArmOut, nat)>, acc: (Term, Term), outs: seq<ArmOut>): (r: Result<ArmsOut>)
    ensures r.Ok? <==> a.Ok? && !IfOfNone(a.value.0, acc)
    ensures r.Ok? ==> r.value == ArmsOut([a.value.0] + outs, a.value.1)
  {
    if a.Err? then Err(a.error)
    else if IfOfNone(a.value.0, acc) then Err(NoneOperand)
    else Ok(ArmsOut([a.value.0] + outs, a.value.1))
  }

  /**
   * One pass of the loop over the arms. `empty` says that the accumulated state is still None:
   * no arm has been processed yet, or the arms processed so far left the state None.
   */
  function ArmEval(env: Env, fuel: nat, victim: Term, arm: Arm, empty: bool, st: Term, ctr: nat)
    : (r: Result<(ArmOut, nat)>)
    ensures r.Ok? ==> r.value.1 >= ctr && (r.value.0.cond.Some? <==> arm.pat.PCtor?)
    ensures r.Ok? && arm.pat.PWild? ==> empty
    decreases fuel, 1, 0
  {
    match arm.pat
    case PCtor(name, binders) =>
      var sort :- VictimSort(victim);
      var cidx :- ConstructorIndex(sort, name);
      var body :- BindFields(arm.body, binders, sort, cidx, victim);
      var o :- Proc(env, fuel, body, st, ctr);
      Ok((ArmOut(Some(Recog(sort, cidx, victim)), o.st, o.val), o.ctr))
    case PWild =>
      if !empty then Err(MisplacedWildcard)
      else
        var o :- Proc(env, fuel, arm.body, st, ctr);
        Ok((ArmOut(None, o.st, o.val), o.ctr))
    case POther(what) => Err(UnknownPatternKind(what))
  }

  /** The type of a plain constructor, with a `res` type narrowed to res unit fattr. */
  function NarrowRes(t: TypeExpr): (r: Result<TypeExpr>)
    ensures t.name != "res" ==> r == Ok(t)
    ensures t.name == "res" ==> (r.Err? <==> |t.args| < 2)
    ensures t.name == "res" && r.Ok? ==>
              r.value == t.(args := r.value.args) && |r.value.args| == |t.args|
              && r.value.args[0] == TypeExpr(t.mod, "unit", [], [])
              && r.value.args[1] == TypeExpr(t.mod, "fattr", [], [])
              && r.value.args[2..] == t.args[2..]
  {
    if t.name != "res" then Ok(t)
    else if |t.args| < 2 then Err(MissingArgument)
    else Ok(t.(args := [TypeExpr(t.mod, "unit", [], []), TypeExpr(t.mod, "fattr", [], [])] + t.args[2..]))
  }

  /**
   * proc_constructor_other: intern the constructor's type, find the constructor by name,
   * evaluate the arguments left to right and build the value.
   */
  function ProcCtorOther(env: Env, fuel: nat, name: string, ty: TypeExpr, args: seq<Expr>,
                         st: Term, ctr: nat): (r: Result<Step>)
    ensures r.Ok? ==> r.value.ctr >= ctr
    decreases fuel, 2, 0
  {
    var t :- NarrowRes(ty);
    var sort :- InternSort(fuel, env.ctx.reduceType, env.base, t);
    var cid :- ConstructorIndex(sort, name);
    var a :- EvalArgs(env, fuel, args, |args|, st, ctr);
    if |a.vals| != Arity(sort, cid) then Err(SolverRejected("wrong number of constructor arguments"))
    else Ok(Step(a.st, Value(Build(sort, cid, a.vals)), a.ctr))
  }

  /** The first n arguments, evaluated left to right, each from the state the previous left. */
  function EvalArgs(env: Env, fuel: nat, args: seq<Expr>, n: nat, st: Term, ctr: nat): (r: Result<ArgsOut>)
    requires n <= |args|
    ensures r.Ok? ==> r.value.ctr >= ctr && |r.value.vals| == n
    decreases fuel, 1, n
  {
    if n == 0 then Ok(ArgsOut(st, [], ctr))
    else
      var a :- EvalArgs(env, fuel, args, n - 1, st, ctr);
      var o :- Proc(env, fuel, args[n - 1], a.st, a.ctr);
      Ok(ArgsOut(o.st, a.vals + [o.val], o.ctr))
  }

  /**
   * proc_constructor_proc: Bind threads the state from its first step into its continuation,
   * Ret leaves the state alone, Call Reads exposes the state, Call SymBool introduces a fresh
   * Boolean constant.
   */
  function ProcCtorProc(env: Env, fuel: nat, name: string, args: seq<Expr>, st: Term, ctr: nat)
    : (r: Result<Step>)
    ensures r.Ok? ==> r.value.ctr >= ctr
    decreases fuel, 1, 0
  {
    if name == "Bind" then
      if |args| < 2 then Err(MissingArgument)
      else
        var o0 :- Proc(env, fuel, args[0], st, ctr);
        var o1 :- Proc(env, fuel, Apply(args[1], [Value(o0.val)]), o0.st, o0.ctr);
        Ok(Step(o1.st, Value(o1.val), o1.ctr))
    else if name == "Ret" then
      if |args| == 0 then Err(MissingArgument)
      else Ok(Step(st, env.ctx.reduce(args[0]), ctr))
    else if name == "Call" then
      if |args| == 0 then Err(MissingArgument)
      else
        match env.ctx.reduce(args[0])
        case Ctor(_, op, _, _) =>
          if op == "Reads" then Ok(Step(st, Value(st), ctr))
          else if op == "SymBool" then
            (match env.boolSort
             case Some(s) => Ok(Step(st, Value(Const(AnonName(ctr + 1), s)), ctr + 1))
             case None => Err(SolverRejected("z3.Const needs a sort")))
          else Err(UnsupportedEffect(op))
        case _ => Err(InvalidCallOperand)
    else Err(UnsupportedProcForm(name))
  }
}
