/** Decoded JSON documents, as the device's state file and the service's request body are read. */
module Json {
  /** Python floats, including the three values JSON text can smuggle in. */
  datatype Number = NotANumber | PositiveInfinity | NegativeInfinity | Finite(value: real) {
    /** `low <= self <= high`, false for NaN as in Python. */
    predicate Within(low: real, high: real) {
      Finite? && low <= value <= high
    }
  }

  datatype Json =
    | Null
    | Bool(truth: bool)
    | Int(whole: int)
    | Float(number: Number)
    | Str(text: string)
    | Arr(items: seq<Json>)
    | Obj(fields: map<string, Json>)
  {
    /** `dict.get(name)`: a missing key reads as null. */
    function Get(name: string): Json
      requires Obj?
    {
      if name in fields then fields[name] else Null
    }

    predicate IsNumber() {
      Int? || Float?
    }

    function AsNumber(): Number
      requires IsNumber()
    {
      if Int? then Finite(whole as real) else number
    }
  }
}
