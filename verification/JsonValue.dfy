/** The values that JSON texts stand for. */
module JsonValue {
  import opened Bytes

  /** A number that is not an unsigned integer is kept as its text. */
  datatype Value =
    | Null
    | Bool(b: bool)
    | Uint(n: nat)
    | Number(text: bytes)
    | Str(s: bytes)
    | Array(elems: seq<Value>)
    | Object(members: seq<Member>)

  datatype Member = Member(name: bytes, value: Value)

  /** The first and the last of the members with a name: a position, or the number of members and -1. */
  function FirstNamed(ms: seq<Member>, name: bytes): (k: nat)
    ensures k <= |ms|
    ensures k < |ms| ==> ms[k].name == name
    ensures forall j :: 0 <= j < k ==> ms[j].name != name
  {
    if ms == [] then 0 else if ms[0].name == name then 0 else 1 + FirstNamed(ms[1..], name)
  }

  function LastNamed(ms: seq<Member>, name: bytes): (k: int)
    ensures -1 <= k < |ms|
    ensures k >= 0 ==> ms[k].name == name
    ensures forall j :: k < j < |ms| ==> ms[j].name != name
  {
    var n := |ms|;
    if n == 0 then -1 else if ms[n - 1].name == name then n - 1 else LastNamed(ms[..n - 1], name)
  }

  ghost predicate DistinctNames(ms: seq<Member>) {
    forall j, k :: 0 <= j < k < |ms| ==> ms[j].name != ms[k].name
  }
}
