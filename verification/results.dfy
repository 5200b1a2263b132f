/** Failure-compatible result and option types shared by the instruction compiler. */
module Results {

  /** The ways an instruction can abort a compilation run. */
  datatype Error =
    | NotAnInstruction                          // process_instruction fell through every kind
    | UnknownSampler(sampler: string)           // sample: unsupported sampling method
    | UnknownComputation(computation: string)   // compute: unsupported computation
    | UnknownParameterization(param: string)    // parameterize: only "coords" exists
    | UnknownPredicate(pred: string)            // assertion_vals: unsupported predicate
    | UnknownLine(pred: string)                 // line2sif: unexpected line predicate
    | UndefinedPoint(name: string)              // lookup_pts: name not in the point table
    | UndefinedName(name: string)               // a Python NameError
    | ArityMismatch                             // unpacking into the wrong number of names
    | MalformedOperands                         // operands of the wrong shape for the method
    | NegatedAssertion                          // add: negation reached the residual stage
    | Degenerate                                // a division by zero in a geometric formula

  datatype Option<+T> = None | Some(value: T)

  datatype Result<+T> = Ok(value: T) | Err(error: Error)
  {
    predicate IsFailure() {
      Err?
    }

    function PropagateFailure<U>(): Result<U>
      requires Err?
    {
      Err(error)
    }

    function Extract(): T
      requires Ok?
    {
      value
    }
  }
}
