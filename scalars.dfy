/** The three leaf coercions of json.c (GetBool, GetInt, GetString): an
    absent node or one of another kind never fails, it reads as the zero of
    the expected kind. */
module Scalars {
  import opened Outcomes
  import opened MachineInt
  import opened CJson

  /** A boolean node's value; `false` for anything else. */
  function GetBool(node: Option<Json>): (r: bool)
    ensures r <==> node == Some(JBool(true))
  {
    match node
    case Some(JBool(b)) => b
    case _ => false
  }

  /** A number node's `int`; 0 for anything else. */
  function GetInt(node: Option<Json>): (r: Int32)
    ensures node.Some? && node.value.JNum? ==> r == node.value.n
    ensures !(node.Some? && node.value.JNum?) ==> r == 0
  {
    match node
    case Some(JNum(n)) => n
    case _ => 0
  }

  /** A string node's text; absent (NULL) for anything else. */
  function GetString(node: Option<Json>): (r: Option<string>)
    ensures r.Some? <==> node.Some? && node.value.JStr?
    ensures r.Some? ==> r.value == node.value.s
  {
    match node
    case Some(JStr(s)) => Some(s)
    case _ => None
  }
}
