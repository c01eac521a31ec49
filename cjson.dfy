/** The parsed attribute tree the decoders walk. The reader that builds it is
    outside the model; this module gives the tree and the four navigation
    operations json.c uses on it: member lookup by name, iteration over a
    node's children, the number of children and the child at an index. A node
    that is absent (C's NULL) is `None`. */
module CJson {
  import opened Outcomes
  import opened MachineInt

  /** A parsed node. A number carries the `int` the reader already derived
      from it. */
  datatype Json =
    | JNull
    | JBool(b: bool)
    | JNum(n: Int32)
    | JStr(s: string)
    | JArr(items: seq<Json>)
    | JObj(members: seq<(string, Json)>)

  /** The position of the first member named `key`, or `|members|` when there
      is none. */
  function FirstKey(members: seq<(string, Json)>, key: string): (k: nat)
    ensures k <= |members|
    ensures k < |members| ==> members[k].0 == key
    ensures forall j :: 0 <= j < k ==> members[j].0 != key
  {
    if members == [] then 0
    else if members[0].0 == key then 0
    else
      var k := FirstKey(members[1..], key);
      assert forall j :: 1 <= j < k + 1 ==> members[j] == members[1..][j - 1];
      1 + k
  }

  /** Case-sensitive member lookup: the value of the first member named `key`
      of an object; absent for any other node and for a missing name. */
  function Lookup(node: Option<Json>, key: string): Option<Json> {
    match node
    case Some(JObj(ms)) =>
      var k := FirstKey(ms, key);
      if k < |ms| then Some(ms[k].1) else None
    case _ => None
  }

  /** Lookup finds a member exactly when an object has one of that name, and
      then it is the first of them. */
  lemma LookupFirstMatch(node: Option<Json>, key: string)
    ensures Lookup(node, key).Some? <==>
              node.Some? && node.value.JObj? &&
              exists k :: 0 <= k < |node.value.members| && node.value.members[k].0 == key
    ensures Lookup(node, key).Some? ==>
              var ms := node.value.members;
              exists k :: 0 <= k < |ms| && ms[k].0 == key && Lookup(node, key).value == ms[k].1 &&
                          forall j :: 0 <= j < k ==> ms[j].0 != key
  {
    if node.Some? && node.value.JObj? {
      var k := FirstKey(node.value.members, key);
    }
  }

  /** The value of the member at `k` is found when no earlier member has
      its name. */
  lemma LookupMember(members: seq<(string, Json)>, key: string, k: nat)
    requires k < |members| && members[k].0 == key
    requires forall j :: 0 <= j < k ==> members[j].0 != key
    ensures Lookup(Some(JObj(members)), key) == Some(members[k].1)
  {
  }

  /** The nodes an iteration over `node` visits, in order: the items of an
      array, the member values of an object, nothing for any other node or an
      absent one. */
  function Children(node: Option<Json>): (r: seq<Json>)
    ensures node.Some? && node.value.JArr? ==> r == node.value.items
    ensures node.Some? && node.value.JObj? ==>
              |r| == |node.value.members| && forall k :: 0 <= k < |r| ==> r[k] == node.value.members[k].1
    ensures node.None? || !(node.value.JArr? || node.value.JObj?) ==> r == []
  {
    match node
    case Some(JArr(items)) => items
    case Some(JObj(ms)) => seq(|ms|, k requires 0 <= k < |ms| => ms[k].1)
    case _ => []
  }

  /** The number of children; 0 for an absent node. */
  function ArraySize(node: Option<Json>): nat {
    |Children(node)|
  }

  /** The child at `index`, absent when there is no such child. */
  function ArrayItem(node: Option<Json>, index: int): (r: Option<Json>)
    ensures r.Some? <==> 0 <= index < ArraySize(node)
    ensures r.Some? ==> r.value == Children(node)[index]
  {
    if 0 <= index < |Children(node)| then Some(Children(node)[index]) else None
  }
}
