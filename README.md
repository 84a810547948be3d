# Symbolic evaluation of extracted Coq procedures (json_sym.py)

`src/Examples/Logging2/json_sym.py` turns a procedure extracted from Coq, in its JSON form, into a
symbolic one. Given a starting symbolic state, it computes the final state and the returned value
as Z3 terms. `proc` runs a trampoline: it reduces the expression and dispatches on its kind. The
kinds are an application of a built-in (`gmap_lookup`, `len_buf`), a `case` match, a constructor
of the `proc` monad (`Bind`, `Ret`, `Call` with the effects `Reads` and `SymBool`), or a plain
constructor of an inductive type. A plain constructor is turned into a Z3 datatype value, and
`z3_sort` interns its type. A `case` evaluates every arm and folds them, from the last arm to the
first, into nested `If`s on the constructor recognizers. `SymBool` makes a fresh Boolean unknown
named `anonN`, numbered by a global counter.

The model has two layers:

* Module `Eval` holds the specification functions. `Proc`, `Loop`, `Dispatch`, `ProcApply`,
  `ProcCase`, `ArmsFrom`, `ArmEval`, `ProcCtorOther`, `EvalArgs` and `ProcCtorProc` are pure,
  and each one threads the counter as a number. `Intern.InternSort` specifies `z3_sort`.
* Module `Symbolic` holds the class `SymbolicJSON`. Its fields `baseTypes` and `boolSort` are
  the object's mutable configuration, and the shared `Fresh.AnonCounter` object is the global
  counter. Its methods perform the source's loops step by step. Each method is proved to return
  what the specification function returns, and to leave the counter where the specification
  says.

Z3 sorts and terms are a datatype in `Terms`, and Python's `None`, used as a state or a value, is the term `Null`. The extracted JSON expressions, patterns and type
expressions are datatypes in `Ast`. A Python exception becomes an `Errors.Error`. Properties of
the specification are proved in `Lookup`, `Intern`, `Cases` and `EvalProperties`.
`FuelProperties` proves that the fuel bound (see below) only cuts evaluations short and changes no
result.

## Model

| member | source | states |
|---|---|---|
| Symbolic.SymbolicJSON.constructor | src/Examples/Logging2/json_sym.py:6-9 | A new evaluator has the given context, no base types and no Boolean sort |
| Symbolic.SymbolicJSON.SetBoolType | src/Examples/Logging2/json_sym.py:11-12 | The Boolean sort becomes the interned sort of the type; on failure the old sort is kept; base types are unchanged |
| Symbolic.SymbolicJSON.RegisterBaseType | src/Examples/Logging2/json_sym.py:14-15 | The builder is bound to the name, and replaces any earlier builder for that name; nothing else changes |
| Symbolic.SymbolicJSON.Z3Sort | src/Examples/Logging2/json_sym.py:17-39 | The nested loops over constructors and argument types return exactly `InternSort` of the current base types, including its errors |
| Intern.BaseTypeBeforeReduce | src/Examples/Logging2/json_sym.py:18-22 | A type whose own name is a base type is built from its unreduced arguments, whatever the reducer does |
| Intern.BaseTypeAfterReduce | src/Examples/Logging2/json_sym.py:24-30 | A type that reduces to a base type (an alias) is built from the reduced type's arguments |
| Intern.InternedDatatypeShape | src/Examples/Logging2/json_sym.py:32-38 | An interned datatype is named after the reduced type and has one constructor per declared constructor, in order and with the same names. Each has one field per argument type, and each field's sort is that argument's interned sort |
| Intern.InternedFieldNamesDistinct | src/Examples/Logging2/json_sym.py:35 | The accessor names `cname_idx` of an interned datatype are pairwise distinct |
| Intern.FieldNameInjective | src/Examples/Logging2/json_sym.py:35 | `cname_idx` determines both the constructor name and the index |
| Intern.InternCtorsShape | src/Examples/Logging2/json_sym.py:33-36 | Every constructor prefix interned by the loop keeps the names and arity of the declared constructors |
| Intern.InternFieldsShape | src/Examples/Logging2/json_sym.py:35-36 | Every field of the list comprehension is named `cname_idx` and has the interned sort of its argument type |
| Intern.InternCtorsErr | src/Examples/Logging2/json_sym.py:33-36 | An error while interning one constructor is the error of the whole loop |
| Intern.InternFieldsErr | src/Examples/Logging2/json_sym.py:35-36 | An error while interning one argument type is the error of the whole comprehension |
| Symbolic.SymbolicJSON.ProcApply | src/Examples/Logging2/json_sym.py:41-56 | The method returns exactly `Eval.ProcApply`, whose behaviour the `EvalProperties` lemmas below state |
| EvalProperties.GmapLookupThreadsState | src/Examples/Logging2/json_sym.py:45-48 | `gmap_lookup` evaluates `args[0]` (the key) and then `args[1]` (the map) from the state the key left. It indexes the map with the key. The state and counter are those the map operand left, and an error at any step is the result |
| EvalProperties.LookupOfValues | src/Examples/Logging2/json_sym.py:45-48 | A lookup whose operands are a key term and an array-sorted map term is the select `m[k]` and changes neither the state nor the counter |
| EvalProperties.RepeatedLookupAgrees | src/Examples/Logging2/json_sym.py:45-48 | Two lookups of the same key in the same map, from any states and counters, give the same term |
| Eval.Index | src/Examples/Logging2/json_sym.py:48 | `m[k]` succeeds iff `m` has an array or sequence sort. It gives the select (typed by the array's range) or the n-th element (typed by the element sort) |
| EvalProperties.LenBufThreadsState | src/Examples/Logging2/json_sym.py:49-51 | `len_buf` evaluates its operand and gives its length, leaving the state and counter that operand left; an error at any step is the result |
| Eval.SeqLength | src/Examples/Logging2/json_sym.py:51 | `z3.Length` succeeds iff its operand has a sequence sort, and the result is an integer |
| EvalProperties.ApplyRejects | src/Examples/Logging2/json_sym.py:44-56 | A callee that is not special gives `UnsupportedCallee`, and a special other than `gmap_lookup`/`len_buf` gives `UnknownBuiltin`. A known special with no operands gives `MissingArgument`. A `gmap_lookup` with one operand evaluates it, then gives `MissingArgument` (or the operand's error) |
| Symbolic.SymbolicJSON.ProcCase | src/Examples/Logging2/json_sym.py:58-87 | The reverse loop returns exactly `Eval.ProcCase`, the merge of all arms from the scrutinee's state. Its `resstate`/`resvalue` accumulator starts at `(None, None)`, and an arm overwrites it while its state is None. A constructor arm that would wrap a None operand in `If` fails with the same error as the specification |
| Symbolic.SymbolicJSON.ProcArm | src/Examples/Logging2/json_sym.py:64-85 | One arm, equal to `Eval.ArmEval`. A constructor pattern gives the recognizer condition and the body with its binders replaced by accessors. A wildcard is accepted only while the accumulated state is None. An unknown pattern is an error |
| Symbolic.SubstPatternVars | src/Examples/Logging2/json_sym.py:69-72 | The binder loop equals `BindFields`: it fails exactly when a non-`_` binder's index is at least the constructor's arity, and otherwise it is the simultaneous substitution of accessors for binders |
| Cases.BindFields | src/Examples/Logging2/json_sym.py:69-72 | Fails iff a non-`_` binder is past the constructor's arity; otherwise the body under the binder environment |
| Cases.SubstBindersIsSimultaneous | src/Examples/Logging2/json_sym.py:69-72 | Substituting binders one after the other equals one simultaneous substitution, since the substituted accessor terms contain no binders |
| Cases.BinderEnvDomain | src/Examples/Logging2/json_sym.py:69-72 | The binder environment binds exactly the binders that are not `_` |
| Cases.BinderEnvFirstWins | src/Examples/Logging2/json_sym.py:69-72 | A repeated binder is bound to the accessor of its first position, because the earlier substitution has already replaced it |
| Cases.FirstMatchWins | src/Examples/Logging2/json_sym.py:63-79 | Assume no arm left the state None and only the last arm may be a wildcard. Then, under any truth assignment to the recognizers, the folded `If` chain selects the state and value of the first arm whose condition holds, or of the last arm |
| Cases.Merge | src/Examples/Logging2/json_sym.py:74-83 | The fold of the arms into the `(resstate, resvalue)` accumulator, which starts at `(None, None)`. Once the arm the loop reaches last leaves a state that is not None, the merged state is not None. A wildcard reached last overwrites the accumulator with its own state and value, whatever the later arms gave |
| Cases.MergeNotNull | src/Examples/Logging2/json_sym.py:74-79 | Once an arm whose state is not None has been merged, the accumulated state is never None again |
| Cases.NullStatesFirstArmWins | src/Examples/Logging2/json_sym.py:74-76 | When every arm leaves the state None, each arm overwrites the accumulator, so the result is `(None, first arm's value)` whatever the recognizers say |
| Cases.LastRecognizerUnused | src/Examples/Logging2/json_sym.py:74-76 | The last arm's condition never appears in the fold, so the last arm acts as a default |
| EvalProperties.CaseFirstMatchWins | src/Examples/Logging2/json_sym.py:58-87 | A successful `case` in which no arm left the state None returns the fold of its arms, in which the first matching arm decides the state and value. If every arm left the state None, it returns `(None, first arm's value)` |
| EvalProperties.ArmsShareState | src/Examples/Logging2/json_sym.py:63-83 | Every arm is evaluated from the scrutinee's state, and the arms run from last to first. The last arm gets the incoming counter, and each arm hands its counter on to the arm before it. Each arm sees the merge of the arms after it as the accumulator, and no arm wraps a None operand in `If` |
| EvalProperties.ConstructorArm | src/Examples/Logging2/json_sym.py:65-73 | A constructor arm that succeeds matches the first constructor of the victim's sort with that name, and its condition is that constructor's recognizer |
| EvalProperties.WildcardNotLast | src/Examples/Logging2/json_sym.py:80-82 | A wildcard reached while the accumulated state is not None makes the `case` fail with the misplaced-wildcard error. If no later arm left the state None, that happens exactly when the wildcard is not the last arm |
| EvalProperties.WildcardAccepted | src/Examples/Logging2/json_sym.py:80-83 | A wildcard reached while the accumulated state is still None is accepted: its body is evaluated, and its result overwrites the accumulator |
| EvalProperties.IfOfNoneRejected | src/Examples/Logging2/json_sym.py:77-79 | A constructor arm reached while the accumulated state is not None fails the whole `case` when its state or value, or the accumulated value, is None, because the solver's `If` refuses a None operand |
| EvalProperties.NullStatesTrail | src/Examples/Logging2/json_sym.py:74-83 | In a successful `case`, an arm that left the state None saw a None accumulator, so every arm after it also left the state None |
| EvalProperties.UnknownPatternRejected | src/Examples/Logging2/json_sym.py:84-85 | An unknown pattern kind makes the `case` fail |
| EvalProperties.WildcardOnlyLast | src/Examples/Logging2/json_sym.py:80-85 | In a successful `case` where no arm left the state None, every arm but the last is a constructor pattern |
| EvalProperties.ArmKinds | src/Examples/Logging2/json_sym.py:65-85 | In a successful `case`, every arm is a constructor pattern or a wildcard, and its result has a recognizer exactly when it is a constructor pattern |
| EvalProperties.WildcardsSeeNull | src/Examples/Logging2/json_sym.py:80-83 | In a successful `case`, every wildcard was reached while the merge of the arms after it had a None state |
| EvalProperties.ArmsFromStep | src/Examples/Logging2/json_sym.py:63-79 | A successful run from arm k is the run from arm k+1 followed by arm k. Arm k gets the later arms' counter and their merge as the accumulator |
| EvalProperties.ArmsFromErr | src/Examples/Logging2/json_sym.py:63-85 | An error in one arm is the error of the whole loop |
| Symbolic.SymbolicJSON.Proc | src/Examples/Logging2/json_sym.py:89-115 | The `while True` trampoline returns exactly `Eval.Proc`: the final state and value, or the first error, with the counter where the specification leaves it |
| Symbolic.SymbolicJSON.ProcCtorOther | src/Examples/Logging2/json_sym.py:117-131 | The result equals `Eval.ProcCtorOther`. A `res` type is narrowed to `res unit fattr`; the type is interned and the constructor looked up. The arguments are evaluated left to right, and the result is the constructor applied to them |
| Symbolic.SymbolicJSON.ProcArgs | src/Examples/Logging2/json_sym.py:126-129 | The argument loop threads the state through the arguments and equals `EvalArgs` |
| Eval.NarrowRes | src/Examples/Logging2/json_sym.py:119-122 | For a `res` type, arguments 0 and 1 become `unit` and `fattr`, and the other arguments are kept. Fewer than two arguments is an error. Any other type is unchanged |
| EvalProperties.PlainConstructorBuilds | src/Examples/Logging2/json_sym.py:117-131 | A successful plain constructor builds the first constructor of that name in the interned sort, from exactly as many evaluated arguments as the constructor has fields |
| EvalProperties.ArgsLeftToRight | src/Examples/Logging2/json_sym.py:126-129 | Argument i is evaluated in the state left by arguments 0..i-1, and its value is the i-th constructor argument |
| EvalProperties.EvalArgsErr | src/Examples/Logging2/json_sym.py:126-129 | An error in one argument is the error of the whole loop |
| Symbolic.SymbolicJSON.ProcCtorProc | src/Examples/Logging2/json_sym.py:133-160 | The result equals `Eval.ProcCtorProc`, for `Bind`, `Ret`, `Call` and the error cases |
| EvalProperties.BindThreadsState | src/Examples/Logging2/json_sym.py:134-144 | `Bind p f` runs `p`, then applies `f` to its result in the state `p` left |
| EvalProperties.BindRetLeftIdentity | src/Examples/Logging2/json_sym.py:134-147 | `Bind (Ret v) f` behaves as `f v` |
| EvalProperties.BindRetRightIdentity | src/Examples/Logging2/json_sym.py:134-147 | `Bind p f`, where `f` reduces its argument to `Ret` of it, behaves as `p` |
| EvalProperties.RetLeavesState | src/Examples/Logging2/json_sym.py:145-147 | `Ret v` leaves the state and the counter unchanged and continues with the reduced `v` |
| EvalProperties.ReadsExposesState | src/Examples/Logging2/json_sym.py:153-154 | `Call Reads` returns the current state as its value and changes nothing |
| EvalProperties.SymBoolIsFresh | src/Examples/Logging2/json_sym.py:155-156 | `Call SymBool` returns a constant of the Boolean sort named `anon` plus the next counter value, and advances the counter by one. Without a Boolean sort it fails |
| EvalProperties.SuccessiveSymBoolsDistinct | src/Examples/Logging2/json_sym.py:155-156 | Two `SymBool` calls in sequence give distinct unknowns |
| EvalProperties.CallRejects | src/Examples/Logging2/json_sym.py:148-160 | A non-constructor operand, an effect other than `Reads`/`SymBool`, and a monad constructor other than `Bind`/`Ret`/`Call` are errors |
| Lookup.ConstructorIndex | src/Examples/Logging2/json_sym.py:162-166 | Succeeds iff the sort is a datatype with a constructor of that name, and then returns the smallest such index; otherwise the unknown-constructor error |
| Lookup.ConstructorByName | src/Examples/Logging2/json_sym.py:162-166 | The loop over constructor indices returns exactly `ConstructorIndex` |
| Lookup.FindFrom | src/Examples/Logging2/json_sym.py:163-165 | Searching from index i finds the smallest matching index at or after i, or reports that none exists |
| Fresh.AnonCounter.Anon | src/Examples/Logging2/json_sym.py:168-172 | Increments the counter and returns `anon` followed by the new value in decimal |
| Fresh.AnonNamesDistinct | src/Examples/Logging2/json_sym.py:168-172 | Different counter values give different names |
| Fresh.AnonNameInjective | src/Examples/Logging2/json_sym.py:172 | The name determines the counter value |
| Decimal.StringToNatInverts | src/Examples/Logging2/json_sym.py:172 | Reading back the decimal rendering `%d` of a number gives the number |
| Decimal.NatToStringInjective | src/Examples/Logging2/json_sym.py:172 | Different numbers have different decimal renderings |
| Ast.SubstAllCompose | src/Examples/Logging2/json_sym.py:72 | Substituting with one environment and then another equals one substitution with the combined environment |
| FuelProperties.ProcMono | src/Examples/Logging2/json_sym.py:89-115 | A `proc` result that did not run out of fuel (a final state and value, or any other error) is the result at every larger fuel |
| FuelProperties.LoopMono | src/Examples/Logging2/json_sym.py:92-115 | The same for the `while True` loop from an already reduced expression |
| FuelProperties.DispatchMono | src/Examples/Logging2/json_sym.py:96-115 | The same for one pass of the loop body |
| FuelProperties.ProcApplyMono | src/Examples/Logging2/json_sym.py:41-56 | The same for `proc_apply` |
| FuelProperties.ProcCaseMono | src/Examples/Logging2/json_sym.py:58-87 | The same for `proc_case` |
| FuelProperties.ArmsFromMono | src/Examples/Logging2/json_sym.py:63-85 | The same for the loop over the arms from arm k on |
| FuelProperties.ArmEvalMono | src/Examples/Logging2/json_sym.py:64-85 | The same for one arm |
| FuelProperties.ProcCtorOtherMono | src/Examples/Logging2/json_sym.py:117-131 | The same for `proc_constructor_other` |
| FuelProperties.EvalArgsMono | src/Examples/Logging2/json_sym.py:126-129 | The same for its loop over the arguments |
| FuelProperties.ProcCtorProcMono | src/Examples/Logging2/json_sym.py:133-160 | The same for `proc_constructor_proc` |
| FuelProperties.InternSortMono | src/Examples/Logging2/json_sym.py:17-39 | A `z3_sort` result that did not run out of fuel is the result at every larger fuel |
| FuelProperties.InternCtorsMono | src/Examples/Logging2/json_sym.py:33-36 | The same for the loop over the constructors |
| FuelProperties.InternFieldsMono | src/Examples/Logging2/json_sym.py:35-36 | The same for the fields of one constructor |
| Ast.SubstAllEmpty | src/Examples/Logging2/json_sym.py:72 | Substitution with the empty environment is the identity |

## Left out

- Z3 itself is left out. Sorts and terms are a datatype, and `If`, `Select`, `Nth`, `Length`, recognizers and accessors are term constructors. Z3's simplification and solving are not modelled.
- Z3's operand checks are modelled only in part. The model checks:
  - a constructor's arity;
  - that `m[k]` has an array or sequence operand (`Eval.Index`);
  - that `Length` has a sequence operand (`Eval.SeqLength`).

  Where Z3 or Python would raise on a case the control flow reaches (an empty datatype, a lookup on a non-datatype sort, indexing a term that is neither an array nor a sequence, the length of a non-sequence, an `If` with a None operand, a `Const` without a sort), the model returns `SolverRejected`. Not modelled: that the two branches of an `If` have the same sort, the sort of an array key, a sequence index or a constructor argument, and Z3's implicit conversions of those operands.
- `json_eval`'s `reduce`, `scope_name` and `get_constructor` are not part of this model. They are the fields `reduce`, `reduceType` and `ownerType` of `Eval.Context`, taken as given functions.
- `json_eval.subst_what` is not part of this model. `Ast.SubstAll` stands in for it: a structural substitution for free `Rel` names, shadowed by lambda parameters and pattern binders.
- `Eval.Proc`: the source's trampoline and `z3_sort`'s recursion carry no bound. The model carries a `fuel` argument and returns `OutOfFuel` when it runs out, so a source run that diverges corresponds to an `OutOfFuel` result for every fuel. Any other result is the same at every larger fuel (`FuelProperties.ProcMono`), so a source run that finishes corresponds to one result, and the properties stated at one fuel carry over to it.
- The three `print` statements (source lines 55, 114 and 118) are output only and are left out.
- The source's `proc` can return any Python value that is not a dict. The model's `Value` carries only Z3 terms, so non-term literals are not modelled.
- `Eval.NarrowRes`: the source's narrowed `unit` and `fattr` type dictionaries have no `args` key. If `unit` or `fattr` is a registered base type, interning one of them would raise `KeyError` when the builder is called. The model gives them an empty argument list and calls the builder with `[]`, so that error is not modelled.
- `Symbolic.SymbolicJSON.ProcCtorOther`: the narrowing of a `res` type writes into the expression's own argument list, which other holders of that list would see. The model narrows a copy, so that aliasing is not captured.
- The source caches no interned sorts: every `z3_sort` call builds a new Z3 datatype. The model follows that, so there is no cache.
- `gmap_lookup` evaluates `args[0]` as the key and `args[1]` as the map, which is the order the code uses.
- Errors carry less detail than the source's exception arguments: for example, the rejected expression is not attached.
- After an error, the counter value is left unspecified. The source may already have advanced it, for instance when `anon()` runs before `z3.Const` rejects a missing sort.
- The global counter starts at 0 when the Python module is loaded, and is never reset. The model shares one `AnonCounter` object, created with value 0, between evaluators.
