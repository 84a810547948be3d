/**
 * z3_sort: turning a type expression into a solver sort. Registered base types are resolved by
 * their builder, before reduction and again after it; any other type becomes a datatype whose
 * field idx of constructor c is named c_idx and has the interned sort of its argument type.
 */
module Intern {
  import opened Errors
  import opened Terms
  import opened Ast
  import opened Decimal

  /** A registered base type: a function from the type's arguments to a sort. */
  type Builder = seq<TypeExpr> -> Sort

  /** cname + '_%d' % idx. */
  function FieldName(cname: string, idx: nat): string {
    cname + "_" + NatToString(idx)
  }

  /** Field names never clash: the name determines both the constructor and the position. */
  lemma FieldNameInjective(c1: string, i1: nat, c2: string, i2: nat)
    ensures FieldName(c1, i1) == FieldName(c2, i2) ==> c1 == c2 && i1 == i2
  {
    var s, s2 := FieldName(c1, i1), FieldName(c2, i2);
    if s == s2 {
      var d1, d2 := NatToString(i1), NatToString(i2);
      assert s == c1 + "_" + d1 && s == c2 + "_" + d2;
      // The separator is the last '_': everything after it is a digit.
      assert s[|c1|] == '_' && forall k :: |c1| < k < |s| ==> s[k] == d1[k - |c1| - 1];
      assert s[|c2|] == '_' && forall k :: |c2| < k < |s| ==> s[k] == d2[k - |c2| - 1];
      assert |c1| == |c2|;
      assert c1 == s[..|c1|] == c2;
      assert d1 == s[|c1| + 1..] == d2;
      NatToStringInjective(i1, i2);
    }
  }

  /** The specification of z3_sort. */
  function InternSort(fuel: nat, reduce: TypeExpr -> TypeExpr, base: map<string, Builder>,
                      t: TypeExpr): Result<Sort>
    decreases fuel, 0, 0
  {
    if t.name in base then Ok(base[t.name](t.args))
    else
      var r := reduce(t);
      if r.name in base then Ok(base[r.name](r.args))
      else if fuel == 0 then Err(OutOfFuel)
      else
        var cs :- InternCtors(fuel - 1, reduce, base, r.ctors, |r.ctors|);
        if |cs| == 0 then Err(SolverRejected("a datatype needs at least one constructor"))
        else Ok(Datatype(r.name, cs))
  }

  /** The declarations of the first n constructors, in order. */
  function InternCtors(fuel: nat, reduce: TypeExpr -> TypeExpr, base: map<string, Builder>,
                       ctors: seq<TypeCtor>, n: nat): (r: Result<seq<CtorDecl>>)
    requires n <= |ctors|
    ensures r.Ok? ==> |r.value| == n
    decreases fuel, 2, n
  {
    if n == 0 then Ok([])
    else
      var cs :- InternCtors(fuel, reduce, base, ctors, n - 1);
      var c := ctors[n - 1];
      var fs :- InternFields(fuel, reduce, base, c.name, c.argtypes, |c.argtypes|);
      Ok(cs + [CtorDecl(c.name, fs)])
  }

  /** The fields of constructor cname for its first n argument types, in order. */
  function InternFields(fuel: nat, reduce: TypeExpr -> TypeExpr, base: map<string, Builder>,
                        cname: string, argtypes: seq<TypeExpr>, n: nat): (r: Result<seq<Field>>)
    requires n <= |argtypes|
    ensures r.Ok? ==> |r.value| == n
    decreases fuel, 1, n
  {
    if n == 0 then Ok([])
    else
      var fs :- InternFields(fuel, reduce, base, cname, argtypes, n - 1);
      var s :- InternSort(fuel, reduce, base, argtypes[n - 1]);
      Ok(fs + [Field(FieldName(cname, n - 1), s)])
  }

  /** Once a prefix of the argument types fails, so does the whole list, with the same error. */
  lemma {:induction false} InternFieldsErr(fuel: nat, reduce: TypeExpr -> TypeExpr,
                                           base: map<string, Builder>, cname: string,
                                           argtypes: seq<TypeExpr>, k: nat, n: nat)
    requires k <= n <= |argtypes|
    requires InternFields(fuel, reduce, base, cname, argtypes, k).Err?
    ensures InternFields(fuel, reduce, base, cname, argtypes, n)
         == InternFields(fuel, reduce, base, cname, argtypes, k)
    decreases n
  {
    if k < n {
      InternFieldsErr(fuel, reduce, base, cname, argtypes, k, n - 1);
    }
  }

  lemma {:induction false} InternCtorsErr(fuel: nat, reduce: TypeExpr -> TypeExpr,
                                          base: map<string, Builder>, ctors: seq<TypeCtor>,
                                          k: nat, n: nat)
    requires k <= n <= |ctors|
    requires InternCtors(fuel, reduce, base, ctors, k).Err?
    ensures InternCtors(fuel, reduce, base, ctors, n) == InternCtors(fuel, reduce, base, ctors, k)
    decreases n
  {
    if k < n {
      InternCtorsErr(fuel, reduce, base, ctors, k, n - 1);
    }
  }

  /**
   * A registered name is resolved by its builder before the reducer is consulted: the result
   * does not depend on the reducer, and no datatype is declared for it.
   */
  lemma BaseTypeBeforeReduce(fuel: nat, reduce1: TypeExpr -> TypeExpr, reduce2: TypeExpr -> TypeExpr,
                             base: map<string, Builder>, t: TypeExpr)
    requires t.name in base
    ensures InternSort(fuel, reduce1, base, t) == Ok(base[t.name](t.args))
    ensures InternSort(fuel, reduce1, base, t) == InternSort(fuel, reduce2, base, t)
  {
  }

  /** A name that becomes a registered one only after reduction (an alias) is resolved too. */
  lemma BaseTypeAfterReduce(fuel: nat, reduce: TypeExpr -> TypeExpr, base: map<string, Builder>,
                            t: TypeExpr)
    requires t.name !in base && reduce(t).name in base
    ensures InternSort(fuel, reduce, base, t) == Ok(base[reduce(t).name](reduce(t).args))
  {
  }

  /**
   * The first n interned constructors keep the names of the reduced ones, their fields are named
   * c_idx and carry the interned sort of the matching argument type.
   */
  lemma {:induction false} InternCtorsShape(fuel: nat, reduce: TypeExpr -> TypeExpr,
                                            base: map<string, Builder>, ctors: seq<TypeCtor>, n: nat)
    requires n <= |ctors|
    requires InternCtors(fuel, reduce, base, ctors, n).Ok?
    ensures forall i | 0 <= i < n ::
              var d := InternCtors(fuel, reduce, base, ctors, n).value[i];
              d.name == ctors[i].name && |d.fields| == |ctors[i].argtypes|
              && forall j | 0 <= j < |d.fields| ::
                   d.fields[j].name == FieldName(ctors[i].name, j)
                   && InternSort(fuel, reduce, base, ctors[i].argtypes[j]) == Ok(d.fields[j].sort)
    decreases n
  {
    if n > 0 {
      InternCtorsShape(fuel, reduce, base, ctors, n - 1);
      var c := ctors[n - 1];
      InternFieldsShape(fuel, reduce, base, c.name, c.argtypes, |c.argtypes|);
    }
  }

  lemma {:induction false} InternFieldsShape(fuel: nat, reduce: TypeExpr -> TypeExpr,
                                             base: map<string, Builder>, cname: string,
                                             argtypes: seq<TypeExpr>, n: nat)
    requires n <= |argtypes|
    requires InternFields(fuel, reduce, base, cname, argtypes, n).Ok?
    ensures forall j | 0 <= j < n ::
              var f := InternFields(fuel, reduce, base, cname, argtypes, n).value[j];
              f.name == FieldName(cname, j) && InternSort(fuel, reduce, base, argtypes[j]) == Ok(f.sort)
    decreases n
  {
    if n > 0 {
      InternFieldsShape(fuel, reduce, base, cname, argtypes, n - 1);
    }
  }

  /**
   * A type that is not registered, before or after reduction, becomes a datatype named after
   * the reduced type, with one constructor per reduced constructor, in order; field idx of
   * constructor c is named c_idx and has the recursively interned sort of its argument type.
   */
  lemma InternedDatatypeShape(fuel: nat, reduce: TypeExpr -> TypeExpr, base: map<string, Builder>,
                              t: TypeExpr)
    requires t.name !in base && reduce(t).name !in base
    requires InternSort(fuel, reduce, base, t).Ok?
    ensures var r, s := reduce(t), InternSort(fuel, reduce, base, t).value;
            fuel > 0 && s == Datatype(r.name, s.ctors) && |s.ctors| == |r.ctors| > 0
            && forall i | 0 <= i < |r.ctors| ::
                 s.ctors[i].name == r.ctors[i].name
                 && |s.ctors[i].fields| == |r.ctors[i].argtypes|
                 && forall j | 0 <= j < |s.ctors[i].fields| ::
                      s.ctors[i].fields[j].name == FieldName(r.ctors[i].name, j)
                      && InternSort(fuel - 1, reduce, base, r.ctors[i].argtypes[j])
                         == Ok(s.ctors[i].fields[j].sort)
  {
    var r := reduce(t);
    InternCtorsShape(fuel - 1, reduce, base, r.ctors, |r.ctors|);
  }

  /**
   * Within an interned datatype whose constructors have distinct names, no two fields share a
   * name, as the solver requires of accessor names.
   */
  lemma InternedFieldNamesDistinct(fuel: nat, reduce: TypeExpr -> TypeExpr,
                                   base: map<string, Builder>, t: TypeExpr,
                                   i1: nat, j1: nat, i2: nat, j2: nat)
    requires t.name !in base && reduce(t).name !in base
    requires InternSort(fuel, reduce, base, t).Ok?
    requires var cs := reduce(t).ctors;
             forall a, b | 0 <= a < b < |cs| :: cs[a].name != cs[b].name
    requires var s := InternSort(fuel, reduce, base, t).value;
             s.Datatype? && i1 < |s.ctors| && i2 < |s.ctors|
             && j1 < |s.ctors[i1].fields| && j2 < |s.ctors[i2].fields|
    requires (i1, j1) != (i2, j2)
    ensures var s := InternSort(fuel, reduce, base, t).value;
            s.ctors[i1].fields[j1].name != s.ctors[i2].fields[j2].name
  {
    InternedDatatypeShape(fuel, reduce, base, t);
    var r, s := reduce(t), InternSort(fuel, reduce, base, t).value;
    FieldNameInjective(r.ctors[i1].name, j1, r.ctors[i2].name, j2);
  }
}
