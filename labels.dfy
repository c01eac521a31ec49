/** The optional label table that both the cell decoder and the animation
    decoder read (json.c:65-82 and json.c:379-396, the same code twice):
    when `labelEnabled` is true, `labelCount` slots are allocated and the
    strings of `labels` are copied into them in order, with no count check. */
module Labels {
  import opened Outcomes
  import opened MachineInt
  import opened CJson
  import opened Scalars
  import opened CountedFill

  /** What an allocated label slot holds before a label is copied into it. */
  const BLANK_LABEL: string := ""

  function LabelEnabled(json: Option<Json>): bool {
    GetBool(Lookup(json, "labelEnabled"))
  }

  function LabelCount(json: Option<Json>): Int32 {
    GetInt(Lookup(json, "labelCount"))
  }

  function LabelEntries(json: Option<Json>): seq<Json> {
    Children(Lookup(json, "labels"))
  }

  /** The copy has no count check and passes every entry through GetString to
      strlen and strcpy, so json.c gives no meaning to a label list longer
      than `labelCount` or holding anything but strings. This is that
      requirement; it binds only when labels are enabled. */
  predicate LabelsDefined(json: Option<Json>) {
    LabelEnabled(json) ==>
      |LabelEntries(json)| <= AllocLength(LabelCount(json)) &&
      forall k :: 0 <= k < |LabelEntries(json)| ==> LabelEntries(json)[k].JStr?
  }

  /** The label slots `init` after the string entries are copied over their
      first |entries| positions. */
  function CopyLabels(init: seq<string>, entries: seq<Json>): (r: seq<string>)
    requires |entries| <= |init|
    requires forall k :: 0 <= k < |entries| ==> entries[k].JStr?
    ensures |r| == |init|
    ensures forall j :: 0 <= j < |entries| ==> r[j] == entries[j].s
    ensures forall j :: |entries| <= j < |init| ==> r[j] == init[j]
    decreases |entries|
  {
    if entries == [] then init
    else
      var j := |entries| - 1;
      CopyLabels(init, entries[..j])[j := GetString(Some(entries[j])).value]
  }

  /** The decoded label table: `labelCount` slots, slot j holding the j-th
      string of `labels`, the slots past the last label left blank. */
  function DecodeLabels(json: Option<Json>): (r: seq<string>)
    requires LabelEnabled(json) && LabelsDefined(json)
  {
    CopyLabels(seq(AllocLength(LabelCount(json)), _ => BLANK_LABEL), LabelEntries(json))
  }

  /** The label list has `labelCount` slots, holding the strings of `labels`
      in their order and blank after them. */
  lemma LabelsInOrder(json: Option<Json>, j: nat)
    requires LabelEnabled(json) && LabelsDefined(json)
    requires j < AllocLength(LabelCount(json))
    ensures |DecodeLabels(json)| == AllocLength(LabelCount(json))
    ensures j < |LabelEntries(json)| ==> DecodeLabels(json)[j] == LabelEntries(json)[j].s
    ensures j >= |LabelEntries(json)| ==> DecodeLabels(json)[j] == BLANK_LABEL
  {
  }

  /** The tree a label list is written as: an array of its strings. */
  function EncodeLabels(labels: seq<string>): Json {
    JArr(seq(|labels|, j requires 0 <= j < |labels| => JStr(labels[j])))
  }

  /** A decoded record's label fields as the decoder leaves them: `labelCount`
      strings when labels are enabled, and no labels and a count of 0
      otherwise. */
  predicate LabelsFill(labelEnabled: bool, labelCount: Int32, labels: seq<string>) {
    (labelEnabled ==> |labels| == AllocLength(labelCount)) &&
    (!labelEnabled ==> labelCount == 0 && labels == [])
  }

  /** A label list that fills `labelCount`, written as a tree, is read back
      as itself. */
  lemma LabelsRoundTrip(json: Option<Json>, labels: seq<string>)
    requires LabelEnabled(json) && LabelEntries(json) == EncodeLabels(labels).items
    requires |labels| == AllocLength(LabelCount(json))
    ensures LabelsDefined(json) && DecodeLabels(json) == labels
  {
    var r := DecodeLabels(json);
    assert forall j :: 0 <= j < |labels| ==> r[j] == LabelEntries(json)[j].s == labels[j];
  }

  /** Reads `labelCount`, allocates the label list and copies the labels into
      it, one per entry of `labels`. */
  method ReadLabels(json: Option<Json>) returns (labelCount: Int32, labels: array<string>)
    requires LabelEnabled(json) && LabelsDefined(json)
    ensures fresh(labels)
    ensures labelCount == LabelCount(json)
    ensures labels[..] == DecodeLabels(json)
  {
    labelCount := GetInt(Lookup(json, "labelCount"));
    labels := new string[AllocLength(labelCount)](_ => BLANK_LABEL);
    ghost var init := labels[..];
    assert init == seq(AllocLength(labelCount), _ => BLANK_LABEL);
    var entries := Children(Lookup(json, "labels"));
    var j := 0;
    while j < |entries|
      invariant 0 <= j <= |entries|
      invariant labels[..] == CopyLabels(init, entries[..j])
    {
      assert entries[..j + 1][..j] == entries[..j];
      labels[j] := GetString(Some(entries[j])).value;
      j := j + 1;
    }
    assert entries[..j] == entries;
  }
}
