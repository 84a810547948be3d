/**
 * The case compiler's two pure ingredients: binding a constructor pattern's variables to field
 * accessors of the scrutinee, and merging the arms' results into a right-nested if-then-else.
 */
module Cases {
  import opened Errors
  import opened Terms
  import opened Ast

  // ---------------------------------------------------------------------------------------
  // Pattern variables
  // ---------------------------------------------------------------------------------------

  /**
   * The body after the substitutions for the first n binders, one after the other, as the
   * source does them: `_` is skipped, binder idx becomes accessor(cidx, idx)(victim).
   */
  function SubstBinders(body: Expr, binders: seq<string>, n: nat, sort: Sort, cidx: nat,
                        victim: Term): Expr
    requires n <= |binders|
  {
    if n == 0 then body
    else
      var b := SubstBinders(body, binders, n - 1, sort, cidx, victim);
      if binders[n - 1] == "_" then b else Subst(b, binders[n - 1], Access(sort, cidx, n - 1, victim))
  }

  /** The variable environment the first n binders set up: the first occurrence of a name wins. */
  function BinderEnv(binders: seq<string>, n: nat, sort: Sort, cidx: nat, victim: Term): map<string, Term>
    requires n <= |binders|
  {
    if n == 0 then map[]
    else
      var m := BinderEnv(binders, n - 1, sort, cidx, victim);
      if binders[n - 1] == "_" then m else map[binders[n - 1] := Access(sort, cidx, n - 1, victim)] + m
  }

  /** BinderEnv binds exactly the binders that are not `_`. */
  lemma {:induction false} BinderEnvDomain(binders: seq<string>, n: nat, sort: Sort, cidx: nat, victim: Term)
    requires n <= |binders|
    ensures forall x :: x in BinderEnv(binders, n, sort, cidx, victim)
                        <==> x != "_" && exists i :: 0 <= i < n && binders[i] == x
  {
    if n > 0 {
      BinderEnvDomain(binders, n - 1, sort, cidx, victim);
      forall x
        ensures x in BinderEnv(binders, n, sort, cidx, victim)
                <==> x != "_" && exists i :: 0 <= i < n && binders[i] == x
      {
        if x == binders[n - 1] {
          assert 0 <= n - 1 < n && binders[n - 1] == x;
        } else {
          assert (exists i :: 0 <= i < n && binders[i] == x) <==> (exists i :: 0 <= i < n - 1 && binders[i] == x);
        }
      }
    }
  }

  /** A binder that is not `_` is bound to the accessor of the first position where it occurs. */
  lemma {:induction false} BinderEnvFirstWins(binders: seq<string>, n: nat, sort: Sort, cidx: nat, victim: Term,
                                              i: nat)
    requires i < n <= |binders| && binders[i] != "_"
    requires forall j | 0 <= j < i :: binders[j] != binders[i]
    ensures binders[i] in BinderEnv(binders, n, sort, cidx, victim)
    ensures BinderEnv(binders, n, sort, cidx, victim)[binders[i]] == Access(sort, cidx, i, victim)
  {
    if i < n - 1 {
      BinderEnvFirstWins(binders, n - 1, sort, cidx, victim, i);
    } else {
      BinderEnvDomain(binders, n - 1, sort, cidx, victim);
    }
  }

  /**
   * The one-after-the-other substitution is the simultaneous substitution of BinderEnv: each
   * binder is replaced by its accessor and nothing else in the body is rewritten.
   */
  lemma {:induction false} SubstBindersIsSimultaneous(body: Expr, binders: seq<string>, n: nat,
                                                      sort: Sort, cidx: nat, victim: Term)
    requires n <= |binders|
    ensures SubstBinders(body, binders, n, sort, cidx, victim)
         == SubstAll(body, BinderEnv(binders, n, sort, cidx, victim))
  {
    if n == 0 {
      SubstAllEmpty(body);
    } else {
      var m := BinderEnv(binders, n - 1, sort, cidx, victim);
      SubstBindersIsSimultaneous(body, binders, n - 1, sort, cidx, victim);
      if binders[n - 1] != "_" {
        var single := map[binders[n - 1] := Access(sort, cidx, n - 1, victim)];
        SubstAllCompose(body, m, single);
        assert BinderEnv(binders, n, sort, cidx, victim) == single + m;
      }
    }
  }

  /**
   * The body of a constructor arm with its variables bound. The solver refuses an accessor past
   * the constructor's arity; a `_` binder asks for no accessor, so it may lie past the arity.
   */
  function BindFields(body: Expr, binders: seq<string>, sort: Sort, cidx: nat, victim: Term): (r: Result<Expr>)
    requires sort.Datatype? && cidx < |sort.ctors|
    ensures r.Err? <==> exists i :: 0 <= i < |binders| && binders[i] != "_" && i >= Arity(sort, cidx)
    ensures r.Ok? ==> r.value == SubstAll(body, BinderEnv(binders, |binders|, sort, cidx, victim))
  {
    SubstBindersIsSimultaneous(body, binders, |binders|, sort, cidx, victim);
    if exists i :: 0 <= i < |binders| && binders[i] != "_" && i >= Arity(sort, cidx)
    then Err(SolverRejected("accessor index out of range"))
    else Ok(SubstBinders(body, binders, |binders|, sort, cidx, victim))
  }

  // ---------------------------------------------------------------------------------------
  // Merging the arms
  // ---------------------------------------------------------------------------------------

  /**
   * What one arm contributes: its recognizer (None for the wildcard) and the state and value
   * its body evaluated to.
   */
  datatype ArmOut = ArmOut(cond: Option<Term>, st: Term, val: Term)

  /** Predicate: no arm left Python's None as its state. */
  predicate NoNullState(outs: seq<ArmOut>) {
    forall j :: 0 <= j < |outs| ==> outs[j].st != Null
  }

  /** Predicate: every arm but the last has a recognizer, that is, a wildcard can only come last. */
  predicate Placed(outs: seq<ArmOut>) {
    forall j :: 0 <= j < |outs| - 1 ==> outs[j].cond.Some?
  }

  /**
   * The (state, value) the reversed loop accumulates, starting from (None, None). A constructor
   * arm overwrites the accumulator while its state is still None, and otherwise wraps it as
   * If(recognizer, its result, the accumulator), separately for state and value. A wildcard
   * (no recognizer) overwrites it.
   */
  function Merge(outs: seq<ArmOut>): (Term, Term) {
    if |outs| == 0 then (Null, Null)
    else
      var rest := Merge(outs[1..]);
      if outs[0].cond.None? || rest.0 == Null then (outs[0].st, outs[0].val)
      else (Ite(outs[0].cond.value, outs[0].st, rest.0), Ite(outs[0].cond.value, outs[0].val, rest.1))
  }

  /**
   * Predicate: merging o into the accumulator acc would build If(recognizer, x, y) with a None
   * operand, which the solver's If refuses: o is a constructor arm, the accumulated state is not
   * None, and the arm's state or value, or the accumulated value, is None.
   */
  predicate IfOfNone(o: ArmOut, acc: (Term, Term)) {
    o.cond.Some? && acc.0 != Null && (o.st == Null || o.val == Null || acc.1 == Null)
  }

  /** The error the solver's If raises on a None operand. */
  const NoneOperand := SolverRejected("If with a None operand")

  /** Once an arm with a state that is not None has been merged, the accumulated state is not None. */
  lemma {:induction false} MergeNotNull(outs: seq<ArmOut>)
    requires |outs| > 0 && NoNullState(outs)
    ensures Merge(outs).0 != Null
  {
    if |outs| > 1 {
      MergeNotNull(outs[1..]);
    }
  }

  /**
   * When every arm leaves the state None, each arm overwrites the accumulator, so the first arm's
   * value is the result whatever the recognizers say.
   */
  lemma {:induction false} NullStatesFirstArmWins(outs: seq<ArmOut>)
    requires |outs| > 0
    requires forall j :: 0 <= j < |outs| ==> outs[j].st == Null
    ensures Merge(outs) == (Null, outs[0].val)
  {
    if |outs| > 1 {
      NullStatesFirstArmWins(outs[1..]);
    }
  }

  /**
   * How a solver model reads a chain of depth nested conditionals: `holds` gives the truth of
   * each condition in that model.
   */
  function Decide(t: Term, holds: Term -> bool, depth: nat): Term {
    if depth == 0 then t
    else match t
      case Ite(c, a, b) => if holds(c) then a else Decide(b, holds, depth - 1)
      case _ => t
  }

  /**
   * The first arm, in source order, that is a wildcard or whose recognizer holds; the last arm
   * when there is none.
   */
  function FirstMatch(outs: seq<ArmOut>, holds: Term -> bool): (k: nat)
    requires |outs| > 0
    ensures k < |outs|
    ensures forall j :: 0 <= j < k ==> outs[j].cond.Some? && !holds(outs[j].cond.value)
    ensures k < |outs| - 1 ==> outs[k].cond.None? || holds(outs[k].cond.value)
  {
    if |outs| == 1 || outs[0].cond.None? || holds(outs[0].cond.value) then 0
    else 1 + FirstMatch(outs[1..], holds)
  }

  /**
   * First match wins: when no arm left the state None and only the last arm may be a wildcard,
   * in any model the merged state and value are those of the first arm that matches, or of the
   * last arm when none does.
   */
  lemma {:induction false} FirstMatchWins(outs: seq<ArmOut>, holds: Term -> bool)
    requires |outs| > 0 && NoNullState(outs) && Placed(outs)
    ensures Decide(Merge(outs).0, holds, |outs| - 1) == outs[FirstMatch(outs, holds)].st
    ensures Decide(Merge(outs).1, holds, |outs| - 1) == outs[FirstMatch(outs, holds)].val
  {
    if |outs| > 1 {
      MergeNotNull(outs[1..]);
      if !holds(outs[0].cond.value) {
        FirstMatchWins(outs[1..], holds);
      }
    }
  }

  /** The last arm's recognizer is never consulted: replacing it changes nothing. */
  lemma {:induction false} LastRecognizerUnused(outs: seq<ArmOut>, c: Option<Term>)
    requires |outs| > 0
    ensures Merge(outs[|outs| - 1 := outs[|outs| - 1].(cond := c)]) == Merge(outs)
  {
    var outs' := outs[|outs| - 1 := outs[|outs| - 1].(cond := c)];
    if |outs| > 1 {
      LastRecognizerUnused(outs[1..], c);
      assert outs'[1..] == outs[1..][|outs| - 2 := outs[|outs| - 1].(cond := c)];
    }
  }
}
