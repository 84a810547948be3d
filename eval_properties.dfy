/** What the evaluator promises, proved about its specification. */
module EvalProperties {
  import opened Errors
  import opened Terms
  import opened Ast
  import opened Lookup
  import opened Cases
  import opened Fresh
  import opened Eval

  // ---------------------------------------------------------------------------------------
  // Case expressions
  // ---------------------------------------------------------------------------------------

  /**
   * First match wins: when no arm left the state None, in any solver model the state and value
   * of a case expression are those of the first arm, in source order, whose recognizer holds,
   * and the last arm's otherwise. When every arm left the state None, each arm overwrote the
   * accumulator instead, and the first arm's value is the result unconditionally.
   */
  lemma CaseFirstMatchWins(env: Env, fuel: nat, scrut: Expr, arms: seq<Arm>, st: Term, ctr: nat,
                           holds: Term -> bool)
    requires |arms| > 0
    requires ProcCase(env, fuel, scrut, arms, st, ctr).Ok?
    ensures var v := Proc(env, fuel, scrut, st, ctr).value;
            var outs := ArmsFrom(env, fuel, v.val, arms, 0, v.st, v.ctr).value.outs;
            var s := ProcCase(env, fuel, scrut, arms, st, ctr).value;
            NoNullState(outs) ==>
              Decide(s.st, holds, |arms| - 1) == outs[FirstMatch(outs, holds)].st
              && Decide(s.next.t, holds, |arms| - 1) == outs[FirstMatch(outs, holds)].val
    ensures var v := Proc(env, fuel, scrut, st, ctr).value;
            var outs := ArmsFrom(env, fuel, v.val, arms, 0, v.st, v.ctr).value.outs;
            var s := ProcCase(env, fuel, scrut, arms, st, ctr).value;
            (forall j :: 0 <= j < |outs| ==> outs[j].st == Null) ==> s.st == Null && s.next.t == outs[0].val
  {
    var v := Proc(env, fuel, scrut, st, ctr).value;
    var outs := ArmsFrom(env, fuel, v.val, arms, 0, v.st, v.ctr).value.outs;
    if NoNullState(outs) {
      WildcardOnlyLast(env, fuel, v.val, arms, 0, v.st, v.ctr);
      FirstMatchWins(outs, holds);
    }
    if forall j :: 0 <= j < |outs| ==> outs[j].st == Null {
      NullStatesFirstArmWins(outs);
    }
  }

  /**
   * One step of the loop over the arms: a successful run from arm k is a successful run from
   * arm k + 1 followed by arm k, which is reached with the counter the later arms left and sees
   * their merge as the accumulator.
   */
  lemma ArmsFromStep(env: Env, fuel: nat, victim: Term, arms: seq<Arm>, k: nat, st: Term, ctr: nat)
    requires k < |arms|
    requires ArmsFrom(env, fuel, victim, arms, k, st, ctr).Ok?
    ensures ArmsFrom(env, fuel, victim, arms, k + 1, st, ctr).Ok?
    ensures var rest := ArmsFrom(env, fuel, victim, arms, k + 1, st, ctr).value;
            var rs := ArmsFrom(env, fuel, victim, arms, k, st, ctr).value;
            var a := ArmEval(env, fuel, victim, arms[k], Merge(rest.outs).0 == Null, st, rest.ctr);
            a.Ok? && a.value == (rs.outs[0], rs.ctr) && rs.outs[1..] == rest.outs
            && !IfOfNone(rs.outs[0], Merge(rest.outs))
  {
  }

  /** One unfolding of ArmsFrom at arm k, once the arms after it succeeded. */
  lemma ArmsFromUnfold(env: Env, fuel: nat, victim: Term, arms: seq<Arm>, k: nat, st: Term, ctr: nat)
    requires k < |arms| && ArmsFrom(env, fuel, victim, arms, k + 1, st, ctr).Ok?
    ensures var rest := ArmsFrom(env, fuel, victim, arms, k + 1, st, ctr).value;
            var acc := Merge(rest.outs);
            ArmsFrom(env, fuel, victim, arms, k, st, ctr)
            == ArmJoin(ArmEval(env, fuel, victim, arms[k], acc.0 == Null, st, rest.ctr), acc, rest.outs)
  {
  }

  /**
   * Predicate: arm k + j, reached with counter cs[j] and with the results outs[j + 1..] of the
   * arms after it, contributes outs[j] and hands on the counter arm k + j - 1 is reached with
   * (cEnd, the final counter, for the first arm).
   */
  predicate ArmGives(env: Env, fuel: nat, victim: Term, arms: seq<Arm>, k: nat, j: nat, st: Term,
                     cs: seq<nat>, cEnd: nat, outs: seq<ArmOut>)
  {
    k + j < |arms| && j < |outs| && j < |cs|
    && var cOut := if j == 0 then cEnd else cs[j - 1];
       var r := ArmEval(env, fuel, victim, arms[k + j], Merge(outs[j + 1..]).0 == Null, st, cs[j]);
       r.Ok? && r.value == (outs[j], cOut) && !IfOfNone(outs[j], Merge(outs[j + 1..]))
  }

  /** ArmGives read one arm further back: prepending the arm before k shifts every index by one. */
  lemma ArmGivesShift(env: Env, fuel: nat, victim: Term, arms: seq<Arm>, k: nat, j: nat, st: Term,
                      cs': seq<nat>, cMid: nat, cEnd: nat, outs': seq<ArmOut>, o: ArmOut)
    requires 1 <= j && ArmGives(env, fuel, victim, arms, k + 1, j - 1, st, cs', cMid, outs')
    ensures ArmGives(env, fuel, victim, arms, k, j, st, [cMid] + cs', cEnd, [o] + outs')
  {
    var outs := [o] + outs';
    assert outs[j] == outs'[j - 1] && outs[j + 1..] == outs'[j..];
  }

  /**
   * Every arm is evaluated from the same state, the one the scrutinee left, and the arms are
   * evaluated from the last to the first: the last arm gets the incoming counter, and each arm
   * hands its counter on to the arm before it.
   */
  lemma {:induction false} ArmsShareState(env: Env, fuel: nat, victim: Term, arms: seq<Arm>, k: nat,
                                          st: Term, ctr: nat)
    returns (cs: seq<nat>)
    requires k <= |arms|
    requires ArmsFrom(env, fuel, victim, arms, k, st, ctr).Ok?
    ensures |cs| == |arms| - k
    ensures |cs| > 0 ==> cs[|cs| - 1] == ctr
    ensures var rs := ArmsFrom(env, fuel, victim, arms, k, st, ctr).value;
            forall j | 0 <= j < |cs| :: ArmGives(env, fuel, victim, arms, k, j, st, cs, rs.ctr, rs.outs)
    decreases |arms| - k
  {
    if k == |arms| {
      cs := [];
    } else {
      ArmsFromStep(env, fuel, victim, arms, k, st, ctr);
      var rest := ArmsFrom(env, fuel, victim, arms, k + 1, st, ctr).value;
      var cs' := ArmsShareState(env, fuel, victim, arms, k + 1, st, ctr);
      var rs := ArmsFrom(env, fuel, victim, arms, k, st, ctr).value;
      cs := [rest.ctr] + cs';
      assert ArmGives(env, fuel, victim, arms, k, 0, st, cs, rs.ctr, rs.outs);
      assert rs.outs == [rs.outs[0]] + rest.outs;
      forall j | 1 <= j < |cs|
        ensures ArmGives(env, fuel, victim, arms, k, j, st, cs, rs.ctr, rs.outs)
      {
        ArmGivesShift(env, fuel, victim, arms, k, j, st, cs', rest.ctr, rs.ctr, rest.outs, rs.outs[0]);
      }
    }
  }

  /**
   * A constructor arm tests recognizer(cidx)(victim), where cidx is the first constructor of the
   * scrutinee's sort with the pattern's name, and evaluates its body, with every binder other
   * than `_` replaced by the accessor of its first position and nothing else rewritten.
   */
  lemma ConstructorArm(env: Env, fuel: nat, victim: Term, name: string, binders: seq<string>,
                       body: Expr, empty: bool, st: Term, ctr: nat)
    requires ArmEval(env, fuel, victim, Arm(PCtor(name, binders), body), empty, st, ctr).Ok?
    ensures SortOf(victim).Some? && ConstructorIndex(SortOf(victim).value, name).Ok?
    ensures var sort := SortOf(victim).value;
            var cidx := ConstructorIndex(sort, name).value;
            var o := Proc(env, fuel, SubstAll(body, BinderEnv(binders, |binders|, sort, cidx, victim)), st, ctr);
            var a := ArmEval(env, fuel, victim, Arm(PCtor(name, binders), body), empty, st, ctr).value;
            sort.ctors[cidx].name == name
            && (forall j :: 0 <= j < cidx ==> sort.ctors[j].name != name)
            && o.Ok? && a == (ArmOut(Some(Recog(sort, cidx, victim)), o.value.st, o.value.val), o.value.ctr)
  {
  }

  /** Once the arms from k on fail, the whole case fails with the same error. */
  lemma {:induction false} ArmsFromErr(env: Env, fuel: nat, victim: Term, arms: seq<Arm>, j: nat, k: nat,
                                       st: Term, ctr: nat)
    requires j <= k <= |arms|
    requires ArmsFrom(env, fuel, victim, arms, k, st, ctr).Err?
    ensures ArmsFrom(env, fuel, victim, arms, j, st, ctr) == ArmsFrom(env, fuel, victim, arms, k, st, ctr)
    decreases k - j
  {
    if j < k {
      ArmsFromErr(env, fuel, victim, arms, j + 1, k, st, ctr);
    }
  }

  /**
   * A wildcard reached while the accumulated state is not None is an error: the whole case
   * fails. When no arm after it left the state None, that happens exactly when the wildcard is
   * not the last arm.
   */
  lemma WildcardNotLast(env: Env, fuel: nat, victim: Term, arms: seq<Arm>, i: nat, st: Term, ctr: nat)
    requires i < |arms| && arms[i].pat == PWild
    requires ArmsFrom(env, fuel, victim, arms, i + 1, st, ctr).Ok?
    ensures var rest := ArmsFrom(env, fuel, victim, arms, i + 1, st, ctr).value;
            Merge(rest.outs).0 != Null ==> ArmsFrom(env, fuel, victim, arms, 0, st, ctr) == Err(MisplacedWildcard)
    ensures var rest := ArmsFrom(env, fuel, victim, arms, i + 1, st, ctr).value;
            NoNullState(rest.outs) ==> (Merge(rest.outs).0 != Null <==> i < |arms| - 1)
  {
    var rest := ArmsFrom(env, fuel, victim, arms, i + 1, st, ctr).value;
    if Merge(rest.outs).0 != Null {
      assert ArmsFrom(env, fuel, victim, arms, i, st, ctr) == Err(MisplacedWildcard);
      ArmsFromErr(env, fuel, victim, arms, 0, i, st, ctr);
    }
    if NoNullState(rest.outs) && i < |arms| - 1 {
      MergeNotNull(rest.outs);
    }
  }

  /**
   * A wildcard reached while the accumulated state is still None (it is the last arm, or the
   * arms after it left the state None) is accepted: its body is evaluated and its result
   * overwrites the accumulator.
   */
  lemma WildcardAccepted(env: Env, fuel: nat, victim: Term, arms: seq<Arm>, i: nat, st: Term, ctr: nat)
    requires i < |arms| && arms[i].pat == PWild
    requires ArmsFrom(env, fuel, victim, arms, i + 1, st, ctr).Ok?
    requires Merge(ArmsFrom(env, fuel, victim, arms, i + 1, st, ctr).value.outs).0 == Null
    ensures var rest := ArmsFrom(env, fuel, victim, arms, i + 1, st, ctr).value;
            ArmsFrom(env, fuel, victim, arms, i, st, ctr)
            == match Proc(env, fuel, arms[i].body, st, rest.ctr)
               case Err(x) => Err(x)
               case Ok(o) => Ok(ArmsOut([ArmOut(None, o.st, o.val)] + rest.outs, o.ctr))
  {
    var rest := ArmsFrom(env, fuel, victim, arms, i + 1, st, ctr).value;
    assert ArmEval(env, fuel, victim, arms[i], true, st, rest.ctr)
        == match Proc(env, fuel, arms[i].body, st, rest.ctr)
           case Err(x) => Err(x)
           case Ok(o) => Ok((ArmOut(None, o.st, o.val), o.ctr));
    assert ArmsFrom(env, fuel, victim, arms, i, st, ctr)
        == match ArmEval(env, fuel, victim, arms[i], true, st, rest.ctr)
           case Err(x) => Err(x)
           case Ok(a) => Ok(ArmsOut([a.0] + rest.outs, a.1));
  }

  /**
   * A constructor arm reached while the accumulated state is not None, whose state or value, or
   * the accumulated value, is None, makes the solver's If fail, and with it the whole case.
   */
  lemma IfOfNoneRejected(env: Env, fuel: nat, victim: Term, arms: seq<Arm>, i: nat, st: Term, ctr: nat)
    requires i < |arms|
    requires ArmsFrom(env, fuel, victim, arms, i + 1, st, ctr).Ok?
    requires var rest := ArmsFrom(env, fuel, victim, arms, i + 1, st, ctr).value;
             var a := ArmEval(env, fuel, victim, arms[i], Merge(rest.outs).0 == Null, st, rest.ctr);
             a.Ok? && IfOfNone(a.value.0, Merge(rest.outs))
    ensures ArmsFrom(env, fuel, victim, arms, 0, st, ctr) == Err(NoneOperand)
  {
    ArmsFromUnfold(env, fuel, victim, arms, i, st, ctr);
    ArmsFromErr(env, fuel, victim, arms, 0, i, st, ctr);
  }

  /**
   * In a case expression that succeeds, an arm that left the state None saw a None accumulator,
   * so the arm after it left the state None too: the arms that leave None form a tail of the list.
   */
  lemma NullStatesTrail(env: Env, fuel: nat, victim: Term, arms: seq<Arm>, st: Term, ctr: nat)
    requires ArmsFrom(env, fuel, victim, arms, 0, st, ctr).Ok?
    ensures var outs := ArmsFrom(env, fuel, victim, arms, 0, st, ctr).value.outs;
            forall j | 0 <= j < |outs| && outs[j].st == Null ::
              Merge(outs[j + 1..]).0 == Null && (j + 1 < |outs| ==> outs[j + 1].st == Null)
  {
    var rs := ArmsFrom(env, fuel, victim, arms, 0, st, ctr).value;
    var outs := rs.outs;
    var cs := ArmsShareState(env, fuel, victim, arms, 0, st, ctr);
    ArmKinds(env, fuel, victim, arms, 0, st, ctr);
    WildcardsSeeNull(env, fuel, victim, arms, 0, st, ctr);
    forall j | 0 <= j < |outs| && outs[j].st == Null
      ensures Merge(outs[j + 1..]).0 == Null
    {
      assert ArmGives(env, fuel, victim, arms, 0, j, st, cs, rs.ctr, outs);
      if outs[j].cond.None? {
        assert arms[j].pat.PWild?;
      }
    }
  }

  /** A pattern that is neither a constructor nor a wildcard is an error when the loop reaches it. */
  lemma UnknownPatternRejected(env: Env, fuel: nat, victim: Term, arms: seq<Arm>, i: nat, what: string,
                               st: Term, ctr: nat)
    requires i < |arms| && arms[i].pat == POther(what)
    requires ArmsFrom(env, fuel, victim, arms, i + 1, st, ctr).Ok?
    ensures ArmsFrom(env, fuel, victim, arms, 0, st, ctr) == Err(UnknownPatternKind(what))
  {
    ArmsFromUnfold(env, fuel, victim, arms, i, st, ctr);
    ArmsFromErr(env, fuel, victim, arms, 0, i, st, ctr);
  }

  /**
   * In a case expression that succeeds, every arm is a constructor pattern or a wildcard, and
   * each result records which.
   */
  lemma {:induction false} ArmKinds(env: Env, fuel: nat, victim: Term, arms: seq<Arm>, k: nat,
                                    st: Term, ctr: nat)
    requires k <= |arms|
    requires ArmsFrom(env, fuel, victim, arms, k, st, ctr).Ok?
    ensures forall i | k <= i < |arms| :: !arms[i].pat.POther?
    ensures var outs := ArmsFrom(env, fuel, victim, arms, k, st, ctr).value.outs;
            forall j | 0 <= j < |outs| :: outs[j].cond.Some? <==> arms[k + j].pat.PCtor?
    decreases |arms| - k
  {
    if k < |arms| {
      ArmsFromStep(env, fuel, victim, arms, k, st, ctr);
      ArmKinds(env, fuel, victim, arms, k + 1, st, ctr);
      var rest := ArmsFrom(env, fuel, victim, arms, k + 1, st, ctr).value;
      var outs := ArmsFrom(env, fuel, victim, arms, k, st, ctr).value.outs;
      forall j | 1 <= j < |outs|
        ensures outs[j].cond.Some? <==> arms[k + j].pat.PCtor?
      {
        assert outs[j] == rest.outs[j - 1];
      }
    }
  }

  /** The results of a successful run from arm k, without arm k's, are those of the run from k + 1. */
  lemma ArmsFromTail(env: Env, fuel: nat, victim: Term, arms: seq<Arm>, k: nat, st: Term, ctr: nat)
    requires k < |arms| && ArmsFrom(env, fuel, victim, arms, k, st, ctr).Ok?
    ensures ArmsFrom(env, fuel, victim, arms, k + 1, st, ctr).Ok?
    ensures ArmsFrom(env, fuel, victim, arms, k, st, ctr).value.outs[1..]
         == ArmsFrom(env, fuel, victim, arms, k + 1, st, ctr).value.outs
  {
    ArmsFromStep(env, fuel, victim, arms, k, st, ctr);
  }

  /** A suffix of a list read past its head is the same suffix of its tail. */
  lemma TailShift(outs: seq<ArmOut>, rest: seq<ArmOut>, d: nat)
    requires |outs| > 0 && outs[1..] == rest && d <= |rest|
    ensures outs[d + 1..] == rest[d..]
  {
  }

  /** A wildcard at arm k of a successful run saw a None merge of the arms after it. */
  lemma WildcardSeesNull(env: Env, fuel: nat, victim: Term, arms: seq<Arm>, k: nat, st: Term, ctr: nat)
    requires k < |arms| && arms[k].pat.PWild?
    requires ArmsFrom(env, fuel, victim, arms, k, st, ctr).Ok?
    ensures Merge(ArmsFrom(env, fuel, victim, arms, k, st, ctr).value.outs[1..]).0 == Null
  {
    ArmsFromStep(env, fuel, victim, arms, k, st, ctr);
  }

  /**
   * In a case expression that succeeds, every wildcard was reached while the accumulated state,
   * the merge of the arms after it, was None.
   */
  lemma {:induction false} WildcardsSeeNull(env: Env, fuel: nat, victim: Term, arms: seq<Arm>, k: nat,
                                            st: Term, ctr: nat)
    requires k <= |arms|
    requires ArmsFrom(env, fuel, victim, arms, k, st, ctr).Ok?
    ensures var outs := ArmsFrom(env, fuel, victim, arms, k, st, ctr).value.outs;
            forall i | k <= i < |arms| && arms[i].pat.PWild? :: Merge(outs[i - k + 1..]).0 == Null
    decreases |arms| - k
  {
    if k < |arms| {
      ArmsFromTail(env, fuel, victim, arms, k, st, ctr);
      WildcardsSeeNull(env, fuel, victim, arms, k + 1, st, ctr);
      var rest := ArmsFrom(env, fuel, victim, arms, k + 1, st, ctr).value;
      var outs := ArmsFrom(env, fuel, victim, arms, k, st, ctr).value.outs;
      if arms[k].pat.PWild? {
        WildcardSeesNull(env, fuel, victim, arms, k, st, ctr);
      }
      forall i | k < i < |arms| && arms[i].pat.PWild?
        ensures Merge(outs[i - k + 1..]).0 == Null
      {
        TailShift(outs, rest.outs, i - k);
      }
    }
  }

  /**
   * A case expression that succeeds, and in which no arm left the state None, has no wildcard
   * except, possibly, in its last arm, and every other arm has a recognizer.
   */
  lemma WildcardOnlyLast(env: Env, fuel: nat, victim: Term, arms: seq<Arm>, k: nat, st: Term, ctr: nat)
    requires k <= |arms|
    requires ArmsFrom(env, fuel, victim, arms, k, st, ctr).Ok?
    requires NoNullState(ArmsFrom(env, fuel, victim, arms, k, st, ctr).value.outs)
    ensures Placed(ArmsFrom(env, fuel, victim, arms, k, st, ctr).value.outs)
    ensures forall i | k <= i < |arms| - 1 :: !arms[i].pat.PWild? && !arms[i].pat.POther?
  {
    ArmKinds(env, fuel, victim, arms, k, st, ctr);
    WildcardsSeeNull(env, fuel, victim, arms, k, st, ctr);
    var outs := ArmsFrom(env, fuel, victim, arms, k, st, ctr).value.outs;
    forall i | k <= i < |arms| - 1
      ensures !arms[i].pat.PWild?
    {
      MergeNotNull(outs[i - k + 1..]);
    }
  }

  // ---------------------------------------------------------------------------------------
  // Applications of the special functions
  // ---------------------------------------------------------------------------------------

  /** Predicate: e reduces to an application of a function that reduces to the special `id`. */
  predicate IsSpecialCall(ctx: Context, e: Expr, id: string, args: seq<Expr>) {
    var r := ctx.reduce(e);
    r.Apply? && ctx.reduce(r.func) == Special(id) && r.args == args
  }

  /**
   * gmap_lookup evaluates args[0] (the key), then args[1] (the map) from the state the key
   * left, and indexes the map with the key; state and counter are those the map operand left.
   */
  lemma GmapLookupThreadsState(env: Env, fuel: nat, e: Expr, args: seq<Expr>, st: Term, ctr: nat)
    requires fuel >= 2 && |args| >= 2 && IsSpecialCall(env.ctx, e, "gmap_lookup", args)
    ensures Proc(env, fuel, e, st, ctr)
         == match Proc(env, fuel - 2, args[0], st, ctr)
            case Err(x) => Err(x)
            case Ok(k) =>
              match Proc(env, fuel - 2, args[1], k.st, k.ctr)
              case Err(x) => Err(x)
              case Ok(m) =>
                match Index(m.val, k.val)
                case Err(x) => Err(x)
                case Ok(v) => Ok(Out(m.st, v, m.ctr))
  {
    var r := env.ctx.reduce(e);
    assert Dispatch(env, fuel - 2, r, st, ctr) == ProcApply(env, fuel - 2, r.func, args, st, ctr);
    var pk := Proc(env, fuel - 2, args[0], st, ctr);
    if pk.Ok? {
      var pm := Proc(env, fuel - 2, args[1], pk.value.st, pk.value.ctr);
      if pm.Ok? {
        var m := pm.value;
        var v := Index(m.val, pk.value.val);
        if v.Ok? {
          assert Loop(env, fuel - 2, Value(v.value), m.st, m.ctr) == Ok(Out(m.st, v.value, m.ctr));
        }
      }
    }
  }

  /**
   * A lookup whose operands reduce to the terms k and m, with m of array sort, is the solver's
   * select m[k], in any state, and leaves the state and counter unchanged.
   */
  lemma LookupOfValues(env: Env, fuel: nat, e: Expr, key: Expr, mp: Expr, k: Term, m: Term, st: Term, ctr: nat)
    requires fuel >= 3 && IsSpecialCall(env.ctx, e, "gmap_lookup", [key, mp])
    requires env.ctx.reduce(key) == Value(k) && env.ctx.reduce(mp) == Value(m)
    requires SortOf(m).Some? && SortOf(m).value.ArraySort?
    ensures Proc(env, fuel, e, st, ctr) == Ok(Out(st, Select(m, k), ctr))
  {
    GmapLookupThreadsState(env, fuel, e, [key, mp], st, ctr);
  }

  /**
   * Repeating a lookup of the same key in the same map, from whatever state and counter, yields
   * the same term.
   */
  lemma RepeatedLookupAgrees(env: Env, fuel1: nat, fuel2: nat, e1: Expr, e2: Expr, key1: Expr, mp1: Expr,
                             key2: Expr, mp2: Expr, k: Term, m: Term, st1: Term, st2: Term, c1: nat, c2: nat)
    requires fuel1 >= 3 && IsSpecialCall(env.ctx, e1, "gmap_lookup", [key1, mp1])
    requires fuel2 >= 3 && IsSpecialCall(env.ctx, e2, "gmap_lookup", [key2, mp2])
    requires env.ctx.reduce(key1) == Value(k) && env.ctx.reduce(mp1) == Value(m)
    requires env.ctx.reduce(key2) == Value(k) && env.ctx.reduce(mp2) == Value(m)
    requires SortOf(m).Some? && SortOf(m).value.ArraySort?
    ensures Proc(env, fuel1, e1, st1, c1).Ok? && Proc(env, fuel2, e2, st2, c2).Ok?
    ensures Proc(env, fuel1, e1, st1, c1).value.val == Proc(env, fuel2, e2, st2, c2).value.val
  {
    LookupOfValues(env, fuel1, e1, key1, mp1, k, m, st1, c1);
    LookupOfValues(env, fuel2, e2, key2, mp2, k, m, st2, c2);
  }

  /** len_buf evaluates its operand and gives the solver's length of it, a sequence. */
  lemma LenBufThreadsState(env: Env, fuel: nat, e: Expr, args: seq<Expr>, st: Term, ctr: nat)
    requires fuel >= 2 && |args| >= 1 && IsSpecialCall(env.ctx, e, "len_buf", args)
    ensures Proc(env, fuel, e, st, ctr)
         == match Proc(env, fuel - 2, args[0], st, ctr)
            case Err(x) => Err(x)
            case Ok(b) =>
              match SeqLength(b.val)
              case Err(x) => Err(x)
              case Ok(n) => Ok(Out(b.st, n, b.ctr))
  {
    var r := env.ctx.reduce(e);
    assert Dispatch(env, fuel - 2, r, st, ctr) == ProcApply(env, fuel - 2, r.func, args, st, ctr);
    var pb := Proc(env, fuel - 2, args[0], st, ctr);
    if pb.Ok? {
      var n := SeqLength(pb.value.val);
      if n.Ok? {
        assert Loop(env, fuel - 2, Value(n.value), pb.value.st, pb.value.ctr) == Ok(Out(pb.value.st, n.value, pb.value.ctr));
      }
    }
  }

  /**
   * Only the special functions gmap_lookup and len_buf can be applied: any other special is an
   * unknown builtin, any other callee is unsupported, and a missing first operand is an error. A
   * gmap_lookup with one operand evaluates it and then fails on the missing second operand.
   */
  lemma ApplyRejects(env: Env, fuel: nat, e: Expr, func: Expr, args: seq<Expr>, st: Term, ctr: nat)
    requires fuel >= 2 && env.ctx.reduce(e) == Apply(func, args)
    ensures !env.ctx.reduce(func).Special? ==> Proc(env, fuel, e, st, ctr) == Err(UnsupportedCallee)
    ensures env.ctx.reduce(func).Special? && env.ctx.reduce(func).id !in {"gmap_lookup", "len_buf"} ==>
              Proc(env, fuel, e, st, ctr) == Err(UnknownBuiltin(env.ctx.reduce(func).id))
    ensures env.ctx.reduce(func).Special? && |args| == 0 ==>
              Proc(env, fuel, e, st, ctr) == Err(if env.ctx.reduce(func).id in {"gmap_lookup", "len_buf"}
                                                 then MissingArgument
                                                 else UnknownBuiltin(env.ctx.reduce(func).id))
    ensures env.ctx.reduce(func) == Special("gmap_lookup") && |args| == 1 ==>
              Proc(env, fuel, e, st, ctr) == match Proc(env, fuel - 2, args[0], st, ctr)
                                             case Err(x) => Err(x)
                                             case Ok(_) => Err(MissingArgument)
  {
    assert Dispatch(env, fuel - 2, Apply(func, args), st, ctr) == ProcApply(env, fuel - 2, func, args, st, ctr);
  }

  // ---------------------------------------------------------------------------------------
  // Proc constructors
  // ---------------------------------------------------------------------------------------

  /** Predicate: e reduces to the proc constructor `name` applied to `args`. */
  predicate IsProcForm(ctx: Context, e: Expr, name: string, args: seq<Expr>) {
    var r := ctx.reduce(e);
    r.Ctor? && r.name == name && r.args == args && ctx.ownerType(r.mod, r.name) == "proc"
  }

  /**
   * Bind(p0, f) evaluates p0 from the given state, then f applied to p0's value from the state
   * p0 left, not from the original one.
   */
  lemma BindThreadsState(env: Env, fuel: nat, e: Expr, args: seq<Expr>, st: Term, ctr: nat)
    requires fuel >= 2 && |args| >= 2 && IsProcForm(env.ctx, e, "Bind", args)
    ensures Proc(env, fuel, e, st, ctr)
         == match Proc(env, fuel - 2, args[0], st, ctr)
            case Err(x) => Err(x)
            case Ok(o0) => Proc(env, fuel - 2, Apply(args[1], [Value(o0.val)]), o0.st, o0.ctr)
  {
    var r := env.ctx.reduce(e);
    assert Dispatch(env, fuel - 2, r, st, ctr) == ProcCtorProc(env, fuel - 2, "Bind", args, st, ctr);
    var p := Proc(env, fuel - 2, args[0], st, ctr);
    if p.Ok? {
      var o0 := p.value;
      var q := Proc(env, fuel - 2, Apply(args[1], [Value(o0.val)]), o0.st, o0.ctr);
      if q.Ok? {
        assert Loop(env, fuel - 2, Value(q.value.val), q.value.st, q.value.ctr) == q;
      }
    }
  }

  /**
   * Ret v leaves the state alone and goes on with the reduced v; when that is already a value,
   * the result is (state, v).
   */
  lemma RetLeavesState(env: Env, fuel: nat, e: Expr, args: seq<Expr>, st: Term, ctr: nat)
    requires fuel >= 2 && |args| >= 1 && IsProcForm(env.ctx, e, "Ret", args)
    ensures Proc(env, fuel, e, st, ctr) == Loop(env, fuel - 2, env.ctx.reduce(args[0]), st, ctr)
    ensures env.ctx.reduce(args[0]).Value? ==>
              Proc(env, fuel, e, st, ctr) == Ok(Out(st, env.ctx.reduce(args[0]).t, ctr))
  {
    var r := env.ctx.reduce(e);
    assert Dispatch(env, fuel - 2, r, st, ctr) == ProcCtorProc(env, fuel - 2, "Ret", args, st, ctr);
  }

  /** Call Reads returns the state as the value and leaves it unchanged. */
  lemma ReadsExposesState(env: Env, fuel: nat, e: Expr, op: Expr, st: Term, ctr: nat)
    requires fuel >= 2 && IsProcForm(env.ctx, e, "Call", [op])
    requires env.ctx.reduce(op).Ctor? && env.ctx.reduce(op).name == "Reads"
    ensures Proc(env, fuel, e, st, ctr) == Ok(Out(st, st, ctr))
  {
    var r := env.ctx.reduce(e);
    assert Dispatch(env, fuel - 2, r, st, ctr) == ProcCtorProc(env, fuel - 2, "Call", [op], st, ctr);
    assert Loop(env, fuel - 2, Value(st), st, ctr) == Ok(Out(st, st, ctr));
  }

  /**
   * Call SymBool leaves the state unchanged and returns a constant of the configured Boolean
   * sort named by the next counter value; without a configured sort the solver refuses.
   */
  lemma SymBoolIsFresh(env: Env, fuel: nat, e: Expr, op: Expr, st: Term, ctr: nat)
    requires fuel >= 2 && IsProcForm(env.ctx, e, "Call", [op])
    requires env.ctx.reduce(op).Ctor? && env.ctx.reduce(op).name == "SymBool"
    ensures env.boolSort.Some? ==>
              Proc(env, fuel, e, st, ctr) == Ok(Out(st, Const(AnonName(ctr + 1), env.boolSort.value), ctr + 1))
    ensures env.boolSort.None? ==> Proc(env, fuel, e, st, ctr).Err?
  {
    var r := env.ctx.reduce(e);
    assert Dispatch(env, fuel - 2, r, st, ctr) == ProcCtorProc(env, fuel - 2, "Call", [op], st, ctr);
    if env.boolSort.Some? {
      var c := Const(AnonName(ctr + 1), env.boolSort.value);
      assert Loop(env, fuel - 2, Value(c), st, ctr + 1) == Ok(Out(st, c, ctr + 1));
    }
  }

  /** Two SymBool calls in a row give two different constants. */
  lemma SuccessiveSymBoolsDistinct(env: Env, fuel1: nat, fuel2: nat, e1: Expr, e2: Expr, op1: Expr,
                                   op2: Expr, st: Term, ctr: nat)
    requires fuel1 >= 2 && fuel2 >= 2 && env.boolSort.Some?
    requires IsProcForm(env.ctx, e1, "Call", [op1]) && IsProcForm(env.ctx, e2, "Call", [op2])
    requires env.ctx.reduce(op1).Ctor? && env.ctx.reduce(op1).name == "SymBool"
    requires env.ctx.reduce(op2).Ctor? && env.ctx.reduce(op2).name == "SymBool"
    ensures Proc(env, fuel1, e1, st, ctr).Ok?
    ensures var o1 := Proc(env, fuel1, e1, st, ctr).value;
            Proc(env, fuel2, e2, o1.st, o1.ctr).Ok?
            && o1.val != Proc(env, fuel2, e2, o1.st, o1.ctr).value.val
  {
    SymBoolIsFresh(env, fuel1, e1, op1, st, ctr);
    SymBoolIsFresh(env, fuel2, e2, op2, st, ctr + 1);
    AnonNamesDistinct(ctr + 1, ctr + 2);
  }

  /**
   * A Call operand that is not a constructor, a Call of an unknown effect and an unknown proc
   * constructor are all errors.
   */
  lemma CallRejects(env: Env, fuel: nat, name: string, args: seq<Expr>, st: Term, ctr: nat)
    requires name == "Call" ==> |args| >= 1
    ensures name == "Call" && !env.ctx.reduce(args[0]).Ctor? ==>
              ProcCtorProc(env, fuel, name, args, st, ctr) == Err(InvalidCallOperand)
    ensures name == "Call" && env.ctx.reduce(args[0]).Ctor?
            && env.ctx.reduce(args[0]).name !in {"Reads", "SymBool"} ==>
              ProcCtorProc(env, fuel, name, args, st, ctr) == Err(UnsupportedEffect(env.ctx.reduce(args[0]).name))
    ensures name !in {"Bind", "Ret", "Call"} ==>
              ProcCtorProc(env, fuel, name, args, st, ctr) == Err(UnsupportedProcForm(name))
  {
  }

  /** Left identity: Bind(Ret v, f) evaluates as f applied to v, from the same state. */
  lemma BindRetLeftIdentity(env: Env, fuel: nat, e: Expr, p0: Expr, f: Expr, v: Expr, t: Term,
                            st: Term, ctr: nat)
    requires fuel >= 4
    requires IsProcForm(env.ctx, e, "Bind", [p0, f]) && IsProcForm(env.ctx, p0, "Ret", [v])
    requires env.ctx.reduce(v) == Value(t)
    ensures Proc(env, fuel, e, st, ctr) == Proc(env, fuel - 2, Apply(f, [Value(t)]), st, ctr)
  {
    BindThreadsState(env, fuel, e, [p0, f], st, ctr);
    RetLeavesState(env, fuel - 2, p0, [v], st, ctr);
  }

  /** Predicate: applying f to any value reduces to Ret of that value. */
  ghost predicate ReturnsItsArgument(ctx: Context, f: Expr) {
    forall t: Term :: ctx.reduce(Value(t)) == Value(t) && IsProcForm(ctx, Apply(f, [Value(t)]), "Ret", [Value(t)])
  }

  /** Right identity: Bind(p, f), where f returns its argument, evaluates as p alone. */
  lemma BindRetRightIdentity(env: Env, fuel: nat, e: Expr, p: Expr, f: Expr, st: Term, ctr: nat)
    requires fuel >= 4
    requires IsProcForm(env.ctx, e, "Bind", [p, f]) && ReturnsItsArgument(env.ctx, f)
    ensures Proc(env, fuel, e, st, ctr) == Proc(env, fuel - 2, p, st, ctr)
  {
    BindThreadsState(env, fuel, e, [p, f], st, ctr);
    var r := Proc(env, fuel - 2, p, st, ctr);
    if r.Ok? {
      var o := r.value;
      assert IsProcForm(env.ctx, Apply(f, [Value(o.val)]), "Ret", [Value(o.val)]);
      assert env.ctx.reduce(Value(o.val)) == Value(o.val);
      RetLeavesState(env, fuel - 2, Apply(f, [Value(o.val)]), [Value(o.val)], o.st, o.ctr);
    }
  }

  // ---------------------------------------------------------------------------------------
  // Plain constructors
  // ---------------------------------------------------------------------------------------

  /**
   * Arguments are evaluated left to right: argument i is evaluated from the state and counter
   * that the arguments before it left, and its value is the i-th of the list.
   */
  lemma {:induction false} ArgsLeftToRight(env: Env, fuel: nat, args: seq<Expr>, n: nat, st: Term,
                                           ctr: nat, i: nat)
    requires i < n <= |args|
    requires EvalArgs(env, fuel, args, n, st, ctr).Ok?
    ensures var pre := EvalArgs(env, fuel, args, i, st, ctr);
            var all := EvalArgs(env, fuel, args, n, st, ctr).value;
            pre.Ok? && pre.value.vals == all.vals[..i]
            && Proc(env, fuel, args[i], pre.value.st, pre.value.ctr).Ok?
            && Proc(env, fuel, args[i], pre.value.st, pre.value.ctr).value.val == all.vals[i]
    decreases n
  {
    if i < n - 1 {
      ArgsLeftToRight(env, fuel, args, n - 1, st, ctr, i);
      var all := EvalArgs(env, fuel, args, n, st, ctr).value;
      var prev := EvalArgs(env, fuel, args, n - 1, st, ctr).value;
      assert all.vals[..n - 1] == prev.vals;
      assert all.vals[..i] == prev.vals[..i];
    } else {
      var all := EvalArgs(env, fuel, args, n, st, ctr).value;
      assert all.vals[..i] == EvalArgs(env, fuel, args, i, st, ctr).value.vals;
    }
  }

  /** Once a prefix of the arguments fails, so does the whole list, with the same error. */
  lemma {:induction false} EvalArgsErr(env: Env, fuel: nat, args: seq<Expr>, k: nat, n: nat, st: Term, ctr: nat)
    requires k <= n <= |args|
    requires EvalArgs(env, fuel, args, k, st, ctr).Err?
    ensures EvalArgs(env, fuel, args, n, st, ctr) == EvalArgs(env, fuel, args, k, st, ctr)
    decreases n
  {
    if k < n {
      EvalArgsErr(env, fuel, args, k, n - 1, st, ctr);
    }
  }

  /**
   * A plain constructor builds a value of its interned sort with the first constructor of that
   * name, from exactly as many evaluated arguments as the constructor has fields.
   */
  lemma PlainConstructorBuilds(env: Env, fuel: nat, name: string, ty: TypeExpr, args: seq<Expr>,
                               st: Term, ctr: nat)
    requires ProcCtorOther(env, fuel, name, ty, args, st, ctr).Ok?
    ensures var t := NarrowRes(ty).value;
            var sort := Intern.InternSort(fuel, env.ctx.reduceType, env.base, t).value;
            var a := EvalArgs(env, fuel, args, |args|, st, ctr).value;
            var s := ProcCtorOther(env, fuel, name, ty, args, st, ctr).value;
            sort.Datatype?
            && (exists cid :: 0 <= cid < |sort.ctors| && sort.ctors[cid].name == name
                 && (forall j :: 0 <= j < cid ==> sort.ctors[j].name != name)
                 && s == Step(a.st, Value(Build(sort, cid, a.vals)), a.ctr)
                 && |a.vals| == |sort.ctors[cid].fields| == |args|)
  {
    var t := NarrowRes(ty).value;
    var sort := Intern.InternSort(fuel, env.ctx.reduceType, env.base, t).value;
    var cid := ConstructorIndex(sort, name).value;
    assert sort.ctors[cid].name == name;
  }
}
