/** Solver sorts and terms, as uninterpreted constructors: the model does not give them solver semantics. */
module Terms {
  import opened Errors

  datatype Sort =
    | Datatype(name: string, ctors: seq<CtorDecl>)   // a sort made by z3.Datatype(...).create()
    | BoolSort
    | IntSort
    | ArraySort(dom: Sort, rng: Sort)
    | SeqSort(elem: Sort)
    | Uninterpreted(name: string)

  datatype CtorDecl = CtorDecl(name: string, fields: seq<Field>)

  datatype Field = Field(name: string, sort: Sort)

  datatype Term =
    | Const(name: string, sort: Sort)                        // z3.Const(name, sort)
    | Build(sort: Sort, cidx: nat, args: seq<Term>)          // sort.constructor(cidx)(*args)
    | Recog(sort: Sort, cidx: nat, arg: Term)                // sort.recognizer(cidx)(arg)
    | Access(sort: Sort, cidx: nat, fidx: nat, arg: Term)    // sort.accessor(cidx, fidx)(arg)
    | Ite(cond: Term, thn: Term, els: Term)                  // z3.If(cond, thn, els)
    | Select(arr: Term, key: Term)                           // arr[key] on an array
    | Nth(sq: Term, idx: Term)                               // sq[idx] on a sequence
    | Length(buf: Term)                                      // z3.Length(buf)
    | Null                                                   // Python's None

  /** Number of fields of constructor cidx of a datatype sort. */
  function Arity(sort: Sort, cidx: nat): nat
    requires sort.Datatype? && cidx < |sort.ctors|
  {
    |sort.ctors[cidx].fields|
  }

  /** term.sort(); None stands for a value that has no sort method (Python's None). */
  function SortOf(t: Term): Option<Sort> {
    match t
    case Const(_, s) => Some(s)
    case Build(s, _, _) => Some(s)
    case Recog(_, _, _) => Some(BoolSort)
    case Access(s, ci, fi, _) =>
      if s.Datatype? && ci < |s.ctors| && fi < |s.ctors[ci].fields|
      then Some(s.ctors[ci].fields[fi].sort) else None
    case Ite(_, a, _) => SortOf(a)
    case Select(m, _) =>
      (match SortOf(m) case Some(ArraySort(_, r)) => Some(r) case _ => None)
    case Nth(q, _) =>
      (match SortOf(q) case Some(SeqSort(e)) => Some(e) case _ => None)
    case Length(_) => Some(IntSort)
    case Null => None
  }
}
