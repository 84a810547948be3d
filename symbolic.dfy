/**
 * The evaluator object, SymbolicJSON, as a class: its mutable configuration (base_types and
 * bool_sort) are fields, the fresh-name counter is a shared AnonCounter object, and each method
 * does what its Python counterpart does, step by step, proved equal to the specification in
 * module Eval.
 */
module Symbolic {
  import opened Errors
  import opened Terms
  import opened Ast
  import opened Lookup
  import opened Intern
  import opened Cases
  import opened Fresh
  import opened Eval
  import EvalProperties

  /** What a helper of proc returns: the state and the expression the trampoline goes on with. */
  datatype Progress = Progress(st: Term, next: Expr)

  /** What proc returns: the final state and the final value. */
  datatype Final = Final(st: Term, val: Term)

  /** The method result r, with counter value ctr afterwards, is the specified result. */
  ghost predicate FinalAgrees(r: Result<Final>, ctr: nat, spec: Result<Out>) {
    match spec
    case Ok(o) => r == Ok(Final(o.st, o.val)) && ctr == o.ctr
    case Err(e) => r == Err(e)
  }

  /** What the argument loop of proc_constructor_other produces. */
  datatype Args = Args(st: Term, vals: seq<Term>)

  ghost predicate ArmAgrees(r: Result<ArmOut>, ctr: nat, spec: Result<(ArmOut, nat)>) {
    match spec
    case Ok(a) => r == Ok(a.0) && ctr == a.1
    case Err(e) => r == Err(e)
  }

  ghost predicate ArgsAgree(r: Result<Args>, ctr: nat, spec: Result<ArgsOut>) {
    match spec
    case Ok(a) => r == Ok(Args(a.st, a.vals)) && ctr == a.ctr
    case Err(e) => r == Err(e)
  }

  ghost predicate ProgressAgrees(r: Result<Progress>, ctr: nat, spec: Result<Step>) {
    match spec
    case Ok(s) => r == Ok(Progress(s.st, s.next)) && ctr == s.ctr
    case Err(e) => r == Err(e)
  }

  /**
   * The loop of proc_case over a constructor pattern's binders: `_` is skipped, every other
   * binder idx is replaced in the body by accessor(cidx, idx)(victim).
   */
  method SubstPatternVars(body: Expr, binders: seq<string>, sort: Sort, cidx: nat, victim: Term)
    returns (r: Result<Expr>)
    requires sort.Datatype? && cidx < |sort.ctors|
    ensures r == BindFields(body, binders, sort, cidx, victim)
  {
    var b := body;
    var idx := 0;
    while idx < |binders|
      invariant 0 <= idx <= |binders|
      invariant b == SubstBinders(body, binders, idx, sort, cidx, victim)
      invariant forall j :: 0 <= j < idx && binders[j] != "_" ==> j < Arity(sort, cidx)
    {
      if binders[idx] != "_" {
        if idx >= |sort.ctors[cidx].fields| {
          return Err(SolverRejected("accessor index out of range"));
        }
        b := Subst(b, binders[idx], Access(sort, cidx, idx, victim));
      }
      idx := idx + 1;
    }
    return Ok(b);
  }

  class SymbolicJSON {
    const context: Context
    const names: AnonCounter
    var baseTypes: map<string, Builder>
    var boolSort: Option<Sort>

    /** The configuration the specification functions are evaluated under. */
    ghost function Config(): Env
      reads this
    {
      Env(context, baseTypes, boolSort)
    }

    constructor (context: Context, names: AnonCounter)
      ensures this.context == context && this.names == names
      ensures baseTypes == map[] && boolSort == None
    {
      this.context := context;
      this.names := names;
      baseTypes := map[];
      boolSort := None;
    }

    /** set_bool_type: the sort of fresh Boolean unknowns; a failure leaves the old one. */
    method SetBoolType(fuel: nat, t: TypeExpr) returns (r: Result<Sort>)
      modifies this
      ensures r == InternSort(fuel, context.reduceType, baseTypes, t)
      ensures baseTypes == old(baseTypes)
      ensures boolSort == if r.Ok? then Some(r.value) else old(boolSort)
    {
      r := Z3Sort(fuel, t);
      if r.Ok? {
        boolSort := Some(r.value);
      }
    }

    /** register_base_type: a later registration of the same name replaces the earlier one. */
    method RegisterBaseType(name: string, builder: Builder)
      modifies this
      ensures baseTypes == old(baseTypes)[name := builder]
      ensures boolSort == old(boolSort)
    {
      baseTypes := baseTypes[name := builder];
    }

    /** z3_sort. */
    method Z3Sort(fuel: nat, t: TypeExpr) returns (r: Result<Sort>)
      ensures r == InternSort(fuel, context.reduceType, baseTypes, t)
      decreases fuel
    {
      if t.name in baseTypes {
        return Ok(baseTypes[t.name](t.args));
      }
      var rt := context.reduceType(t);
      if rt.name in baseTypes {
        return Ok(baseTypes[rt.name](rt.args));
      }
      if fuel == 0 {
        return Err(OutOfFuel);
      }
      var ctors: seq<CtorDecl> := [];
      var i := 0;
      while i < |rt.ctors|
        invariant 0 <= i <= |rt.ctors|
        invariant InternCtors(fuel - 1, context.reduceType, baseTypes, rt.ctors, i) == Ok(ctors)
      {
        var c := rt.ctors[i];
        var fields: seq<Field> := [];
        var idx := 0;
        while idx < |c.argtypes|
          invariant 0 <= idx <= |c.argtypes|
          invariant InternFields(fuel - 1, context.reduceType, baseTypes, c.name, c.argtypes, idx) == Ok(fields)
        {
          var s := Z3Sort(fuel - 1, c.argtypes[idx]);
          if s.Err? {
            InternFieldsErr(fuel - 1, context.reduceType, baseTypes, c.name, c.argtypes, idx + 1, |c.argtypes|);
            InternCtorsErr(fuel - 1, context.reduceType, baseTypes, rt.ctors, i + 1, |rt.ctors|);
            return Err(s.error);
          }
          fields := fields + [Field(FieldName(c.name, idx), s.value)];
          idx := idx + 1;
        }
        ctors := ctors + [CtorDecl(c.name, fields)];
        i := i + 1;
      }
      if |ctors| == 0 {
        return Err(SolverRejected("a datatype needs at least one constructor"));
      }
      return Ok(Datatype(rt.name, ctors));
    }

    /** proc: reduce once, then the trampoline. */
    method Proc(fuel: nat, e: Expr, state: Term) returns (r: Result<Final>)
      modifies names
      ensures FinalAgrees(r, names.ctr, Eval.Proc(Config(), fuel, e, state, old(names.ctr)))
      decreases fuel, 0, 0
    {
      if fuel == 0 {
        return Err(OutOfFuel);
      }
      var f: nat := fuel - 1;
      var procexpr := context.reduce(e);
      var st := state;
      while true
        invariant Loop(Config(), f, procexpr, st, names.ctr) == Eval.Proc(Config(), fuel, e, state, old(names.ctr))
        decreases f
      {
        if procexpr.Value? {
          return Ok(Final(st, procexpr.t));
        }
        if f == 0 {
          return Err(OutOfFuel);
        }
        f := f - 1;
        var step: Result<Progress>;
        match procexpr {
          case Apply(func, args) =>
            step := ProcApply(f, func, args, st);
          case Case(scrut, arms) =>
            step := ProcCase(f, scrut, arms, st);
          case Ctor(mod, name, ty, args) =>
            if context.ownerType(mod, name) == "proc" {
              step := ProcCtorProc(f, name, args, st);
            } else {
              step := ProcCtorOther(f, name, ty, args, st);
            }
          case _ =>
            return Err(UnsupportedExpressionKind);
        }
        if step.Err? {
          return Err(step.error);
        }
        st, procexpr := step.value.st, step.value.next;
      }
    }

    /** proc_apply. */
    method ProcApply(fuel: nat, func: Expr, args: seq<Expr>, state: Term) returns (r: Result<Progress>)
      modifies names
      ensures ProgressAgrees(r, names.ctr, Eval.ProcApply(Config(), fuel, func, args, state, old(names.ctr)))
      decreases fuel, 1, 0
    {
      var f := context.reduce(func);
      if !f.Special? {
        return Err(UnsupportedCallee);
      }
      if f.id == "gmap_lookup" {
        if |args| == 0 {
          return Err(MissingArgument);
        }
        var k := Proc(fuel, args[0], state);
        if k.Err? {
          return Err(k.error);
        }
        if |args| < 2 {
          return Err(MissingArgument);
        }
        var m := Proc(fuel, args[1], k.value.st);
        if m.Err? {
          return Err(m.error);
        }
        var v := Index(m.value.val, k.value.val);
        if v.Err? {
          return Err(v.error);
        }
        return Ok(Progress(m.value.st, Value(v.value)));
      } else if f.id == "len_buf" {
        if |args| == 0 {
          return Err(MissingArgument);
        }
        var b := Proc(fuel, args[0], state);
        if b.Err? {
          return Err(b.error);
        }
        var n := SeqLength(b.value.val);
        if n.Err? {
          return Err(n.error);
        }
        return Ok(Progress(b.value.st, Value(n.value)));
      } else {
        return Err(UnknownBuiltin(f.id));
      }
    }

    /** proc_case: the scrutinee, then the arms from last to first into the accumulator. */
    method ProcCase(fuel: nat, scrut: Expr, arms: seq<Arm>, state: Term) returns (r: Result<Progress>)
      modifies names
      ensures ProgressAgrees(r, names.ctr, Eval.ProcCase(Config(), fuel, scrut, arms, state, old(names.ctr)))
      decreases fuel, 3, 0
    {
      var v := Proc(fuel, scrut, state);
      if v.Err? {
        return Err(v.error);
      }
      var st, victim := v.value.st, v.value.val;
      ghost var c0 := names.ctr;
      ghost var outs: seq<ArmOut> := [];
      var acc: (Term, Term) := (Null, Null);   // (resstate, resvalue)
      var k := |arms|;
      while k > 0
        invariant 0 <= k <= |arms|
        invariant ArmsFrom(Config(), fuel, victim, arms, k, st, c0) == Ok(ArmsOut(outs, names.ctr))
        invariant acc == Merge(outs)
        decreases k
      {
        k := k - 1;
        var out := ProcArm(fuel, victim, arms[k], acc.0 == Null, st);
        if out.Err? {
          EvalProperties.ArmsFromErr(Config(), fuel, victim, arms, 0, k, st, c0);
          return Err(out.error);
        }
        var o := out.value;
        match o.cond {
          case None =>
            acc := (o.st, o.val);
          case Some(cond) =>
            if acc.0 == Null {
              acc := (o.st, o.val);
            } else if o.st == Null || o.val == Null || acc.1 == Null {
              EvalProperties.ArmsFromErr(Config(), fuel, victim, arms, 0, k, st, c0);
              return Err(NoneOperand);
            } else {
              acc := (Ite(cond, o.st, acc.0), Ite(cond, o.val, acc.1));
            }
        }
        outs := [o] + outs;
      }
      return Ok(Progress(acc.0, Value(acc.1)));
    }

    /**
     * One iteration of proc_case's loop over the arms: the recognizer condition (none for a
     * wildcard), and the state and value of the arm's body. A wildcard is accepted only while
     * the accumulated state is still None (`empty`).
     */
    method ProcArm(fuel: nat, victim: Term, arm: Arm, empty: bool, st: Term) returns (r: Result<ArmOut>)
      modifies names
      ensures ArmAgrees(r, names.ctr, ArmEval(Config(), fuel, victim, arm, empty, st, old(names.ctr)))
      decreases fuel, 1, 0
    {
      match arm.pat {
        case PCtor(name, binders) =>
          var sort := VictimSort(victim);
          if sort.Err? {
            return Err(sort.error);
          }
          var cidx := ConstructorByName(sort.value, name);
          if cidx.Err? {
            return Err(cidx.error);
          }
          var body := SubstPatternVars(arm.body, binders, sort.value, cidx.value, victim);
          if body.Err? {
            return Err(body.error);
          }
          var p := Proc(fuel, body.value, st);
          if p.Err? {
            return Err(p.error);
          }
          return Ok(ArmOut(Some(Recog(sort.value, cidx.value, victim)), p.value.st, p.value.val));
        case PWild =>
          if !empty {
            return Err(MisplacedWildcard);
          }
          var p := Proc(fuel, arm.body, st);
          if p.Err? {
            return Err(p.error);
          }
          return Ok(ArmOut(None, p.value.st, p.value.val));
        case POther(what) =>
          return Err(UnknownPatternKind(what));
      }
    }

    /** proc_constructor_other. */
    method ProcCtorOther(fuel: nat, name: string, ty: TypeExpr, args: seq<Expr>, state: Term)
      returns (r: Result<Progress>)
      modifies names
      ensures ProgressAgrees(r, names.ctr, Eval.ProcCtorOther(Config(), fuel, name, ty, args, state, old(names.ctr)))
      decreases fuel, 2, 0
    {
      ghost var spec := Eval.ProcCtorOther(Config(), fuel, name, ty, args, state, names.ctr);
      var t := ty;
      if t.name == "res" {
        if |t.args| < 2 {
          return Err(MissingArgument);
        }
        // arguments 0 and 1 are overwritten, the rest kept
        t := t.(args := [TypeExpr(t.mod, "unit", [], []), TypeExpr(t.mod, "fattr", [], [])] + t.args[2..]);
      }
      assert NarrowRes(ty) == Ok(t);
      var sort := Z3Sort(fuel, t);
      if sort.Err? {
        assert spec == Err(sort.error);
        return Err(sort.error);
      }
      var cid := ConstructorByName(sort.value, name);
      if cid.Err? {
        assert spec == Err(cid.error);
        return Err(cid.error);
      }
      var a := ProcArgs(fuel, args, state);
      if a.Err? {
        assert spec == Err(a.error);
        return Err(a.error);
      }
      var st, cargs := a.value.st, a.value.vals;
      if |cargs| != Arity(sort.value, cid.value) {
        return Err(SolverRejected("wrong number of constructor arguments"));
      }
      return Ok(Progress(st, Value(Build(sort.value, cid.value, cargs))));
    }

    /** The loop of proc_constructor_other over the arguments, threading the state. */
    method ProcArgs(fuel: nat, args: seq<Expr>, state: Term) returns (r: Result<Args>)
      modifies names
      ensures ArgsAgree(r, names.ctr, EvalArgs(Config(), fuel, args, |args|, state, old(names.ctr)))
      decreases fuel, 1, |args|
    {
      ghost var c0 := names.ctr;
      var cargs: seq<Term> := [];
      var st := state;
      var i := 0;
      while i < |args|
        invariant 0 <= i <= |args|
        invariant EvalArgs(Config(), fuel, args, i, state, c0) == Ok(ArgsOut(st, cargs, names.ctr))
      {
        var o := Proc(fuel, args[i], st);
        if o.Err? {
          EvalProperties.EvalArgsErr(Config(), fuel, args, i + 1, |args|, state, c0);
          return Err(o.error);
        }
        st := o.value.st;
        cargs := cargs + [o.value.val];
        i := i + 1;
      }
      return Ok(Args(st, cargs));
    }

    /** proc_constructor_proc: Bind, Ret and Call. */
    method ProcCtorProc(fuel: nat, name: string, args: seq<Expr>, state: Term) returns (r: Result<Progress>)
      modifies names
      ensures ProgressAgrees(r, names.ctr, Eval.ProcCtorProc(Config(), fuel, name, args, state, old(names.ctr)))
      decreases fuel, 1, 0
    {
      if name == "Bind" {
        if |args| < 2 {
          return Err(MissingArgument);
        }
        var o0 := Proc(fuel, args[0], state);
        if o0.Err? {
          return Err(o0.error);
        }
        var o1 := Proc(fuel, Apply(args[1], [Value(o0.value.val)]), o0.value.st);
        if o1.Err? {
          return Err(o1.error);
        }
        return Ok(Progress(o1.value.st, Value(o1.value.val)));
      } else if name == "Ret" {
        if |args| == 0 {
          return Err(MissingArgument);
        }
        return Ok(Progress(state, context.reduce(args[0])));
      } else if name == "Call" {
        if |args| == 0 {
          return Err(MissingArgument);
        }
        var callop := context.reduce(args[0]);
        if !callop.Ctor? {
          return Err(InvalidCallOperand);
        }
        if callop.name == "Reads" {
          return Ok(Progress(state, Value(state)));
        } else if callop.name == "SymBool" {
          var anon := names.Anon();
          if boolSort.None? {
            return Err(SolverRejected("z3.Const needs a sort"));
          }
          return Ok(Progress(state, Value(Const(anon, boolSort.value))));
        } else {
          return Err(UnsupportedEffect(callop.name));
        }
      } else {
        return Err(UnsupportedProcForm(name));
      }
    }
  }
}
