/** The dynamically typed data carried by tuples. */
module Values {

  const TWO_63: int := 0x8000_0000_0000_0000

  type Int64 = i: int | -TWO_63 <= i < TWO_63

  /** A double. Finite doubles are split into the integral ones, the negative zero and those with
      a fractional part; the latter are identified by their bit pattern. */
  datatype Float64 =
    | NaN
    | PosInf
    | NegInf
    | NegZero
    | Whole(n: int)
    | Fraction(bits: Int64)

  datatype Value =
    | Null
    | Bool(b: bool)
    | Int(i: Int64)
    | Float(f: Float64)
    | String(s: string)
    | Blob(bytes: seq<nat>)
    | Timestamp(ns: int)
    | Array(elems: seq<Value>)
    | Map(entries: map<string, Value>)

  /** Result of an operation that may fail. The text of error messages is not modelled. */
  datatype Result<+T> = Ok(value: T) | Err {
    predicate IsFailure() { Err? }

    function PropagateFailure<U>(): (r: Result<U>)
      requires Err?
    {
      Err
    }

    function Extract(): T
      requires Ok?
    {
      value
    }
  }
}
