/**
 * The reduced JSON AST the evaluator consumes: type expressions, patterns, match arms and
 * expressions. A solver term embedded in an expression (the result of an earlier step, or a
 * field accessor substituted for a pattern variable) is a Value.
 */
module Ast {
  import opened Terms

  /** A type expression; `ctors` is filled in by the reducer. */
  datatype TypeExpr = TypeExpr(mod: string, name: string, args: seq<TypeExpr>, ctors: seq<TypeCtor>)

  datatype TypeCtor = TypeCtor(name: string, argtypes: seq<TypeExpr>)

  datatype Pattern =
    | PCtor(name: string, binders: seq<string>)   // pat:constructor
    | PWild                                       // pat:wild
    | POther(what: string)                        // any other pattern kind

  datatype Arm = Arm(pat: Pattern, body: Expr)

  datatype Expr =
    | Value(t: Term)                                               // anything that is not a dict
    | Apply(func: Expr, args: seq<Expr>)                           // expr:apply
    | Case(scrut: Expr, arms: seq<Arm>)                            // expr:case
    | Ctor(mod: string, name: string, ty: TypeExpr, args: seq<Expr>) // expr:constructor
    | Special(id: string)                                          // expr:special
    | Rel(name: string)                                            // expr:rel, a variable
    | Lam(param: string, body: Expr)                               // a lambda, for the reducer
    | Other(what: string, kids: seq<Expr>)                         // any other expression kind

  /** The names a pattern binds in its arm's body. */
  function Bound(p: Pattern): set<string> {
    if p.PCtor? then set b | b in p.binders else {}
  }

  /**
   * Simultaneous substitution of solver terms for the free variables named in `env`: a
   * structural stand-in for json_eval.subst_what, whose code is not part of this model.
   * Only `Rel(x)` with `x` free and in `env` is rewritten.
   */
  function SubstAll(e: Expr, env: map<string, Term>): Expr
    decreases e
  {
    match e
    case Value(_) => e
    case Rel(y) => if y in env then Value(env[y]) else e
    case Apply(f, args) =>
      Apply(SubstAll(f, env), seq(|args|, i requires 0 <= i < |args| => SubstAll(args[i], env)))
    case Case(s, arms) =>
      Case(SubstAll(s, env),
           seq(|arms|, i requires 0 <= i < |arms| =>
                 Arm(arms[i].pat, SubstAll(arms[i].body, env - Bound(arms[i].pat)))))
    case Ctor(m, n, ty, args) =>
      Ctor(m, n, ty, seq(|args|, i requires 0 <= i < |args| => SubstAll(args[i], env)))
    case Special(_) => e
    case Lam(p, b) => Lam(p, SubstAll(b, env - {p}))
    case Other(w, kids) =>
      Other(w, seq(|kids|, i requires 0 <= i < |kids| => SubstAll(kids[i], env)))
  }

  /** subst_what(e, 'expr:rel', x, v): replaces the free occurrences of variable x by v. */
  function Subst(e: Expr, x: string, v: Term): Expr {
    SubstAll(e, map[x := v])
  }

  lemma {:induction false} SubstAllEmpty(e: Expr)
    ensures SubstAll(e, map[]) == e
    decreases e
  {
    match e
    case Value(_) =>
    case Rel(_) =>
    case Special(_) =>
    case Apply(f, args) =>
      SubstAllEmpty(f);
      forall i | 0 <= i < |args| ensures SubstAll(args[i], map[]) == args[i] { SubstAllEmpty(args[i]); }
    case Case(s, arms) =>
      SubstAllEmpty(s);
      forall i | 0 <= i < |arms|
        ensures Arm(arms[i].pat, SubstAll(arms[i].body, map[] - Bound(arms[i].pat))) == arms[i]
      {
        var empty: map<string, Term> := map[];
        assert empty - Bound(arms[i].pat) == empty;
        SubstAllEmpty(arms[i].body);
      }
    case Ctor(_, _, _, args) =>
      forall i | 0 <= i < |args| ensures SubstAll(args[i], map[]) == args[i] { SubstAllEmpty(args[i]); }
    case Lam(p, b) =>
      var empty: map<string, Term> := map[];
      assert empty - {p} == empty;
      SubstAllEmpty(b);
    case Other(_, kids) =>
      forall i | 0 <= i < |kids| ensures SubstAll(kids[i], map[]) == kids[i] { SubstAllEmpty(kids[i]); }
  }

  /**
   * Substituting `a` and then `b` is one simultaneous substitution in which `a` wins: the terms
   * put in by the first pass contain no variables, so the second pass only reaches the variables
   * the first one left alone.
   */
  lemma {:induction false} SubstAllCompose(e: Expr, a: map<string, Term>, b: map<string, Term>)
    ensures SubstAll(SubstAll(e, a), b) == SubstAll(e, b + a)
    decreases e
  {
    match e
    case Value(_) =>
    case Rel(_) =>
    case Special(_) =>
    case Apply(f, args) =>
      SubstAllCompose(f, a, b);
      forall i | 0 <= i < |args|
        ensures SubstAll(SubstAll(args[i], a), b) == SubstAll(args[i], b + a)
      {
        SubstAllCompose(args[i], a, b);
      }
    case Case(s, arms) =>
      SubstAllCompose(s, a, b);
      forall i | 0 <= i < |arms|
        ensures SubstAll(SubstAll(arms[i].body, a - Bound(arms[i].pat)), b - Bound(arms[i].pat))
             == SubstAll(arms[i].body, (b + a) - Bound(arms[i].pat))
      {
        var B := Bound(arms[i].pat);
        SubstAllCompose(arms[i].body, a - B, b - B);
        assert (b - B) + (a - B) == (b + a) - B;
      }
    case Ctor(_, _, _, args) =>
      forall i | 0 <= i < |args|
        ensures SubstAll(SubstAll(args[i], a), b) == SubstAll(args[i], b + a)
      {
        SubstAllCompose(args[i], a, b);
      }
    case Lam(p, body) =>
      SubstAllCompose(body, a - {p}, b - {p});
      assert (b - {p}) + (a - {p}) == (b + a) - {p};
    case Other(_, kids) =>
      forall i | 0 <= i < |kids|
        ensures SubstAll(SubstAll(kids[i], a), b) == SubstAll(kids[i], b + a)
      {
        SubstAllCompose(kids[i], a, b);
      }
  }
}
