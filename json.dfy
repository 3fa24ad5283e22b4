/** Decoded JSON values, as `JSON.parse` and `response.json()` hand them to the import. */
module Json {

  /** A JSON value. Numbers carry an integer only: the import never inspects them. */
  datatype Json =
    | Null
    | Bool(b: bool)
    | Num(n: int)
    | Str(s: string)
    | Arr(items: seq<Json>)
    | Obj(members: map<string, Json>)

  /** The JSON strings holding `ts`, in order. */
  function StrItems(ts: seq<string>): (items: seq<Json>)
    ensures |items| == |ts|
    ensures forall i :: 0 <= i < |ts| ==> items[i] == Str(ts[i])
  {
    seq(|ts|, i requires 0 <= i < |ts| => Str(ts[i]))
  }
}
