/** constructor_by_name: find a constructor of a datatype sort by its name. */
module Lookup {
  import opened Errors
  import opened Terms

  /**
   * The first constructor at or after position i whose name is cname. Its contract is what the
   * search promises: the index found is the smallest match, and failure means there is none.
   */
  function FindFrom(ctors: seq<CtorDecl>, cname: string, i: nat): (r: Result<nat>)
    requires i <= |ctors|
    ensures r.Ok? ==> i <= r.value < |ctors| && ctors[r.value].name == cname
                      && forall j :: i <= j < r.value ==> ctors[j].name != cname
    ensures r.Err? ==> r.error == UnknownConstructor(cname)
                       && forall j :: i <= j < |ctors| ==> ctors[j].name != cname
    decreases |ctors| - i
  {
    if i == |ctors| then Err(UnknownConstructor(cname))
    else if ctors[i].name == cname then Ok(i)
    else FindFrom(ctors, cname, i + 1)
  }

  /**
   * The specification of constructor_by_name. A sort that is not a datatype has no
   * num_constructors, so the lookup fails in the solver binding rather than in the search.
   */
  function ConstructorIndex(sort: Sort, cname: string): (r: Result<nat>)
    ensures r.Ok? <==> sort.Datatype? && exists j :: 0 <= j < |sort.ctors| && sort.ctors[j].name == cname
    ensures r.Ok? ==> sort.Datatype? && r.value < |sort.ctors| && sort.ctors[r.value].name == cname
                      && forall j :: 0 <= j < r.value ==> sort.ctors[j].name != cname
    ensures r.Err? && sort.Datatype? ==> r.error == UnknownConstructor(cname)
  {
    if sort.Datatype? then FindFrom(sort.ctors, cname, 0)
    else Err(SolverRejected("num_constructors on a sort that is not a datatype"))
  }

  /** constructor_by_name: a linear search with an early return. */
  method ConstructorByName(sort: Sort, cname: string) returns (r: Result<nat>)
    ensures r == ConstructorIndex(sort, cname)
  {
    if !sort.Datatype? {
      return Err(SolverRejected("num_constructors on a sort that is not a datatype"));
    }
    var i := 0;
    while i < |sort.ctors|
      invariant 0 <= i <= |sort.ctors|
      invariant forall j :: 0 <= j < i ==> sort.ctors[j].name != cname
    {
      if sort.ctors[i].name == cname {
        return Ok(i);
      }
      i := i + 1;
    }
    return Err(UnknownConstructor(cname));
  }
}
