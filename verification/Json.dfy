/** JSON values, with object members in document order. */
module Json {
  /**
   A JSON number as the serializer sees it. `Exact` is an integer within 2^53 of
   zero. Every other number is a double: zero of either sign, or the shortest
   digits that round-trip and the position `n` of the decimal point, so that it
   denotes `0.digits * 10^n`.
   */
  datatype Number =
    | Exact(i: int)
    | ZeroDouble(negativeZero: bool)
    | Double(negative: bool, digits: string, n: int)

  datatype Value =
    | Null
    | Bool(b: bool)
    | Num(num: Number)
    | Str(s: string)
    | Arr(items: seq<Value>)
    | Obj(fields: seq<Field>)

  datatype Field = Field(key: string, value: Value)

  predicate UniqueKeys(fields: seq<Field>) {
    forall i, j :: 0 <= i < j < |fields| ==> fields[i].key != fields[j].key
  }

  /** The member `key` of an object. */
  function IndexOf(fields: seq<Field>, key: string): (r: int)
    ensures -1 <= r < |fields|
    ensures r >= 0 ==> fields[r].key == key
    ensures r < 0 ==> forall i :: 0 <= i < |fields| ==> fields[i].key != key
    ensures forall i :: 0 <= i < r ==> fields[i].key != key
  {
    if fields == [] then -1
    else if fields[0].key == key then 0
    else
      var r := IndexOf(fields[1..], key);
      if r < 0 then -1 else r + 1
  }
}
