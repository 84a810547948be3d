/** Failure-compatible wrappers and the exceptions the symbolic evaluator raises. */
module Errors {

  datatype Option<+T> = None | Some(value: T)

  /** Every exception aborts the whole evaluation; nothing recovers locally. */
  datatype Error =
    | UnknownConstructor(cname: string)   // constructor_by_name found no constructor of that name
    | MisplacedWildcard                   // a wildcard arm that is not the last arm
    | UnknownPatternKind(what: string)    // a pattern that is neither a constructor nor a wildcard
    | UnknownBuiltin(id: string)          // a special function other than gmap_lookup and len_buf
    | UnsupportedCallee                   // an application whose callee is not a special function
    | UnsupportedExpressionKind           // proc() reached something it cannot evaluate
    | InvalidCallOperand                  // the operand of Call is not a constructor
    | UnsupportedEffect(op: string)       // a Call operand other than Reads and SymBool
    | UnsupportedProcForm(name: string)   // a proc constructor other than Bind, Ret and Call
    | MissingArgument                     // an argument list shorter than the index read from it
    | SolverRejected(reason: string)      // the solver refuses an operation the evaluator asks for
    | OutOfFuel                           // the evaluation bound ran out

  datatype Result<+T> = Ok(value: T) | Err(error: Error) {
    predicate IsFailure() { Err? }

    function PropagateFailure<U>(): Result<U>
      requires Err?
    {
      Err(error)
    }

    function Extract(): T
      requires Ok?
    {
      value
    }
  }
}
