/**
 * The fuel bound is only a bound: a result that did not run out of fuel is the result for any
 * larger fuel too. So every property stated at one fuel is a property of the unbounded
 * evaluator whenever that evaluator finishes.
 */
module FuelProperties {
  import opened Errors
  import opened Terms
  import opened Ast
  import opened Lookup
  import opened Intern
  import opened Cases
  import opened Eval
  import opened EvalProperties

  /** Predicate: r was not cut short by the fuel bound. */
  predicate Settled<T>(r: Result<T>) {
    r.Ok? || r.error != OutOfFuel
  }

  // ---------------------------------------------------------------------------------------
  // z3_sort
  // ---------------------------------------------------------------------------------------

  lemma {:induction false} InternSortMono(fuel: nat, fuel': nat, reduce: TypeExpr -> TypeExpr,
                                          base: map<string, Builder>, t: TypeExpr)
    requires fuel <= fuel' && Settled(InternSort(fuel, reduce, base, t))
    ensures InternSort(fuel', reduce, base, t) == InternSort(fuel, reduce, base, t)
    decreases fuel, 0, 0
  {
    var r := reduce(t);
    if t.name !in base && r.name !in base {
      InternCtorsMono(fuel - 1, fuel' - 1, reduce, base, r.ctors, |r.ctors|);
    }
  }

  lemma {:induction false} InternCtorsMono(fuel: nat, fuel': nat, reduce: TypeExpr -> TypeExpr,
                                           base: map<string, Builder>, ctors: seq<TypeCtor>, n: nat)
    requires n <= |ctors|
    requires fuel <= fuel' && Settled(InternCtors(fuel, reduce, base, ctors, n))
    ensures InternCtors(fuel', reduce, base, ctors, n) == InternCtors(fuel, reduce, base, ctors, n)
    decreases fuel, 2, n
  {
    if n > 0 {
      InternCtorsMono(fuel, fuel', reduce, base, ctors, n - 1);
      if InternCtors(fuel, reduce, base, ctors, n - 1).Ok? {
        var c := ctors[n - 1];
        InternFieldsMono(fuel, fuel', reduce, base, c.name, c.argtypes, |c.argtypes|);
      }
    }
  }

  lemma {:induction false} InternFieldsMono(fuel: nat, fuel': nat, reduce: TypeExpr -> TypeExpr,
                                            base: map<string, Builder>, cname: string,
                                            argtypes: seq<TypeExpr>, n: nat)
    requires n <= |argtypes|
    requires fuel <= fuel' && Settled(InternFields(fuel, reduce, base, cname, argtypes, n))
    ensures InternFields(fuel', reduce, base, cname, argtypes, n)
         == InternFields(fuel, reduce, base, cname, argtypes, n)
    decreases fuel, 1, n
  {
    if n > 0 {
      InternFieldsMono(fuel, fuel', reduce, base, cname, argtypes, n - 1);
      if InternFields(fuel, reduce, base, cname, argtypes, n - 1).Ok? {
        InternSortMono(fuel, fuel', reduce, base, argtypes[n - 1]);
      }
    }
  }

  // ---------------------------------------------------------------------------------------
  // proc and the helpers it dispatches to
  // ---------------------------------------------------------------------------------------

  /** proc: a finished evaluation, or an error other than running out of fuel, is final. */
  lemma {:induction false} ProcMono(env: Env, fuel: nat, fuel': nat, e: Expr, st: Term, ctr: nat)
    requires fuel <= fuel' && Settled(Proc(env, fuel, e, st, ctr))
    ensures Proc(env, fuel', e, st, ctr) == Proc(env, fuel, e, st, ctr)
    decreases fuel, 0, 0
  {
    if fuel > 0 {
      LoopMono(env, fuel - 1, fuel' - 1, env.ctx.reduce(e), st, ctr);
    }
  }

  lemma {:induction false} LoopMono(env: Env, fuel: nat, fuel': nat, e: Expr, st: Term, ctr: nat)
    requires fuel <= fuel' && Settled(Loop(env, fuel, e, st, ctr))
    ensures Loop(env, fuel', e, st, ctr) == Loop(env, fuel, e, st, ctr)
    decreases fuel, 4, 0
  {
    if !e.Value? && fuel > 0 {
      DispatchMono(env, fuel - 1, fuel' - 1, e, st, ctr);
      var s := Dispatch(env, fuel - 1, e, st, ctr);
      if s.Ok? {
        LoopMono(env, fuel - 1, fuel' - 1, s.value.next, s.value.st, s.value.ctr);
      }
    }
  }

  lemma {:induction false} DispatchMono(env: Env, fuel: nat, fuel': nat, e: Expr, st: Term, ctr: nat)
    requires !e.Value?
    requires fuel <= fuel' && Settled(Dispatch(env, fuel, e, st, ctr))
    ensures Dispatch(env, fuel', e, st, ctr) == Dispatch(env, fuel, e, st, ctr)
    decreases fuel, 5, 0
  {
    match e
    case Apply(func, args) =>
      ProcApplyMono(env, fuel, fuel', func, args, st, ctr);
    case Case(scrut, arms) =>
      ProcCaseMono(env, fuel, fuel', scrut, arms, st, ctr);
    case Ctor(mod, name, ty, args) =>
      if env.ctx.ownerType(mod, name) == "proc" {
        ProcCtorProcMono(env, fuel, fuel', name, args, st, ctr);
      } else {
        ProcCtorOtherMono(env, fuel, fuel', name, ty, args, st, ctr);
      }
    case _ =>
  }

  lemma {:induction false} ProcApplyMono(env: Env, fuel: nat, fuel': nat, func: Expr, args: seq<Expr>,
                                         st: Term, ctr: nat)
    requires fuel <= fuel' && Settled(ProcApply(env, fuel, func, args, st, ctr))
    ensures ProcApply(env, fuel', func, args, st, ctr) == ProcApply(env, fuel, func, args, st, ctr)
    decreases fuel, 1, 0
  {
    match env.ctx.reduce(func)
    case Special(id) =>
      if (id == "gmap_lookup" || id == "len_buf") && |args| > 0 {
        ProcMono(env, fuel, fuel', args[0], st, ctr);
        var k := Proc(env, fuel, args[0], st, ctr);
        if id == "gmap_lookup" && k.Ok? && |args| >= 2 {
          ProcMono(env, fuel, fuel', args[1], k.value.st, k.value.ctr);
        }
      }
    case _ =>
  }

  lemma {:induction false} ProcCaseMono(env: Env, fuel: nat, fuel': nat, scrut: Expr, arms: seq<Arm>,
                                        st: Term, ctr: nat)
    requires fuel <= fuel' && Settled(ProcCase(env, fuel, scrut, arms, st, ctr))
    ensures ProcCase(env, fuel', scrut, arms, st, ctr) == ProcCase(env, fuel, scrut, arms, st, ctr)
    decreases fuel, 3, 0
  {
    ProcMono(env, fuel, fuel', scrut, st, ctr);
    var v := Proc(env, fuel, scrut, st, ctr);
    if v.Ok? {
      ArmsFromMono(env, fuel, fuel', v.value.val, arms, 0, v.value.st, v.value.ctr);
    }
  }

  lemma {:induction false} ArmsFromMono(env: Env, fuel: nat, fuel': nat, victim: Term, arms: seq<Arm>,
                                        k: nat, st: Term, ctr: nat)
    requires k <= |arms|
    requires fuel <= fuel' && Settled(ArmsFrom(env, fuel, victim, arms, k, st, ctr))
    ensures ArmsFrom(env, fuel', victim, arms, k, st, ctr) == ArmsFrom(env, fuel, victim, arms, k, st, ctr)
    decreases fuel, 2, |arms| - k
  {
    if k < |arms| {
      var rest := ArmsFrom(env, fuel, victim, arms, k + 1, st, ctr);
      if rest.Err? {
        assert ArmsFrom(env, fuel, victim, arms, k, st, ctr) == Err(rest.error);
      }
      ArmsFromMono(env, fuel, fuel', victim, arms, k + 1, st, ctr);
      if rest.Ok? {
        ArmsFromConsMono(env, fuel, fuel', victim, arms, k, st, ctr);
      }
    }
  }

  /** The step of ArmsFromMono for arm k, once the arms after it agree at both fuels. */
  lemma {:induction false} ArmsFromConsMono(env: Env, fuel: nat, fuel': nat, victim: Term, arms: seq<Arm>,
                                            k: nat, st: Term, ctr: nat)
    requires k < |arms|
    requires fuel <= fuel' && Settled(ArmsFrom(env, fuel, victim, arms, k, st, ctr))
    requires ArmsFrom(env, fuel, victim, arms, k + 1, st, ctr).Ok?
    requires ArmsFrom(env, fuel', victim, arms, k + 1, st, ctr) == ArmsFrom(env, fuel, victim, arms, k + 1, st, ctr)
    ensures ArmsFrom(env, fuel', victim, arms, k, st, ctr) == ArmsFrom(env, fuel, victim, arms, k, st, ctr)
    decreases fuel, 1, 2
  {
    var rest := ArmsFrom(env, fuel, victim, arms, k + 1, st, ctr).value;
    var acc := Merge(rest.outs);
    var a := ArmEval(env, fuel, victim, arms[k], acc.0 == Null, st, rest.ctr);
    ArmsFromUnfold(env, fuel, victim, arms, k, st, ctr);
    ArmsFromUnfold(env, fuel', victim, arms, k, st, ctr);
    ArmEvalMono(env, fuel, fuel', victim, arms[k], acc.0 == Null, st, rest.ctr);
  }

  lemma {:induction false} ArmEvalMono(env: Env, fuel: nat, fuel': nat, victim: Term, arm: Arm,
                                       empty: bool, st: Term, ctr: nat)
    requires fuel <= fuel' && Settled(ArmEval(env, fuel, victim, arm, empty, st, ctr))
    ensures ArmEval(env, fuel', victim, arm, empty, st, ctr) == ArmEval(env, fuel, victim, arm, empty, st, ctr)
    decreases fuel, 1, 1
  {
    if arm.pat.PCtor? {
      CtorArmMono(env, fuel, fuel', victim, arm, empty, st, ctr);
    } else if arm.pat.PWild? && empty {
      ProcMono(env, fuel, fuel', arm.body, st, ctr);
    }
  }

  /** The constructor-pattern case of ArmEvalMono. */
  lemma {:induction false} CtorArmMono(env: Env, fuel: nat, fuel': nat, victim: Term, arm: Arm,
                                       empty: bool, st: Term, ctr: nat)
    requires arm.pat.PCtor?
    requires fuel <= fuel' && Settled(ArmEval(env, fuel, victim, arm, empty, st, ctr))
    ensures ArmEval(env, fuel', victim, arm, empty, st, ctr) == ArmEval(env, fuel, victim, arm, empty, st, ctr)
    decreases fuel, 1, 0
  {
    var sort := VictimSort(victim);
    if sort.Ok? && ConstructorIndex(sort.value, arm.pat.name).Ok? {
      var cidx := ConstructorIndex(sort.value, arm.pat.name).value;
      var body := BindFields(arm.body, arm.pat.binders, sort.value, cidx, victim);
      if body.Ok? {
        CtorArmUnfold(env, fuel, victim, arm, empty, st, ctr);
        CtorArmUnfold(env, fuel', victim, arm, empty, st, ctr);
        ProcMono(env, fuel, fuel', body.value, st, ctr);
        return;
      }
    }
    CtorArmEarly(env, fuel, fuel', victim, arm, empty, st, ctr);
  }

  /** A constructor arm that fails before its body is evaluated fails alike at every fuel. */
  lemma CtorArmEarly(env: Env, fuel: nat, fuel': nat, victim: Term, arm: Arm, empty: bool, st: Term, ctr: nat)
    requires arm.pat.PCtor?
    requires var sort := VictimSort(victim);
             sort.Err? || ConstructorIndex(sort.value, arm.pat.name).Err?
             || BindFields(arm.body, arm.pat.binders, sort.value, ConstructorIndex(sort.value, arm.pat.name).value,
                           victim).Err?
    ensures ArmEval(env, fuel', victim, arm, empty, st, ctr) == ArmEval(env, fuel, victim, arm, empty, st, ctr)
  {
  }

  /** One unfolding of ArmEval on a constructor arm whose body could be built. */
  lemma CtorArmUnfold(env: Env, fuel: nat, victim: Term, arm: Arm, empty: bool, st: Term, ctr: nat)
    requires arm.pat.PCtor?
    requires VictimSort(victim).Ok? && ConstructorIndex(VictimSort(victim).value, arm.pat.name).Ok?
    requires BindFields(arm.body, arm.pat.binders, VictimSort(victim).value,
                        ConstructorIndex(VictimSort(victim).value, arm.pat.name).value, victim).Ok?
    ensures var sort := VictimSort(victim).value;
            var cidx := ConstructorIndex(sort, arm.pat.name).value;
            var body := BindFields(arm.body, arm.pat.binders, sort, cidx, victim).value;
            var o := Proc(env, fuel, body, st, ctr);
            ArmEval(env, fuel, victim, arm, empty, st, ctr)
            == if o.Ok? then Ok((ArmOut(Some(Recog(sort, cidx, victim)), o.value.st, o.value.val), o.value.ctr))
               else Err(o.error)
  {
  }

  lemma {:induction false} ProcCtorOtherMono(env: Env, fuel: nat, fuel': nat, name: string, ty: TypeExpr,
                                             args: seq<Expr>, st: Term, ctr: nat)
    requires fuel <= fuel' && Settled(ProcCtorOther(env, fuel, name, ty, args, st, ctr))
    ensures ProcCtorOther(env, fuel', name, ty, args, st, ctr) == ProcCtorOther(env, fuel, name, ty, args, st, ctr)
    decreases fuel, 2, 0
  {
    var t := NarrowRes(ty);
    if t.Ok? {
      InternSortMono(fuel, fuel', env.ctx.reduceType, env.base, t.value);
      var sort := InternSort(fuel, env.ctx.reduceType, env.base, t.value);
      if sort.Ok? && ConstructorIndex(sort.value, name).Ok? {
        EvalArgsMono(env, fuel, fuel', args, |args|, st, ctr);
      }
    }
  }

  lemma {:induction false} EvalArgsMono(env: Env, fuel: nat, fuel': nat, args: seq<Expr>, n: nat,
                                        st: Term, ctr: nat)
    requires n <= |args|
    requires fuel <= fuel' && Settled(EvalArgs(env, fuel, args, n, st, ctr))
    ensures EvalArgs(env, fuel', args, n, st, ctr) == EvalArgs(env, fuel, args, n, st, ctr)
    decreases fuel, 1, n
  {
    if n > 0 {
      EvalArgsMono(env, fuel, fuel', args, n - 1, st, ctr);
      var a := EvalArgs(env, fuel, args, n - 1, st, ctr);
      if a.Ok? {
        ProcMono(env, fuel, fuel', args[n - 1], a.value.st, a.value.ctr);
      }
    }
  }

  lemma {:induction false} ProcCtorProcMono(env: Env, fuel: nat, fuel': nat, name: string, args: seq<Expr>,
                                            st: Term, ctr: nat)
    requires fuel <= fuel' && Settled(ProcCtorProc(env, fuel, name, args, st, ctr))
    ensures ProcCtorProc(env, fuel', name, args, st, ctr) == ProcCtorProc(env, fuel, name, args, st, ctr)
    decreases fuel, 1, 0
  {
    if name == "Bind" && |args| >= 2 {
      ProcMono(env, fuel, fuel', args[0], st, ctr);
      var o0 := Proc(env, fuel, args[0], st, ctr);
      if o0.Ok? {
        ProcMono(env, fuel, fuel', Apply(args[1], [Value(o0.value.val)]), o0.value.st, o0.value.ctr);
      }
    }
  }
}
