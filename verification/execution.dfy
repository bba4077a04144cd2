/** What running a generated snippet with `eval` gives back, as far as the
    generator and the reviewer look at it: either an exception, or a
    DataFrame, a Series or any other value, together with its printed
    form `str(result)`. The pandas computation itself is not modelled. */
module Execution {

  datatype Answer =
    | Frame(rows: nat, shown: string)
    | Series(length: nat, shown: string)
    | Scalar(shown: string)

  datatype Outcome = Raised(message: string) | Returned(answer: Answer)
}
