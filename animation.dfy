/** The animation decoder ParseNANRJson (json.c:233-401): a
    `sequenceCount`-slot sequence table, each sequence owning a
    `frameCount`-slot frame list, then a `resultCount`-slot result table whose
    payload is chosen by `resultType`, then the optional label table. Every
    table is count-checked and an overflow is fatal. */
module Animation {
  import opened Outcomes
  import opened MachineInt
  import opened CJson
  import opened Scalars
  import opened CountedFill
  import opened Labels

  /** `struct FrameData`. */
  datatype FrameData = FrameData(frameDelay: Int32, resultId: Int32)

  /** `struct SequenceData`, with its frame list held by value. */
  datatype SequenceData = SequenceData(frameCount: Int32, loopStartFrame: Int32, animationElement: Int32,
                                       animationType: Int32, playbackMode: Int32, frameData: seq<FrameData>)

  /** `struct AnimationResults` as a sum keyed by `resultType`: type 0 is a
      bare index, type 1 the SRT payload, type 2 the T payload, and any other
      type carries only its discriminant. */
  datatype AnimationResult =
    | IndexResult(index: Int32)
    | SrtResult(index: Int32, rotation: Int32, scaleX: Int32, scaleY: Int32, positionX: Int32, positionY: Int32)
    | TResult(index: Int32, positionX: Int32, positionY: Int32)
    | UnknownResult(resultType: Int32)
  {
    /** The discriminant the record stores. */
    function ResultType(): Int32 {
      match this
      case IndexResult(_) => 0
      case SrtResult(_, _, _, _, _, _) => 1
      case TResult(_, _, _) => 2
      case UnknownResult(t) => t
    }

    /** The unknown arm is used only for types other than 0, 1 and 2. */
    predicate Tagged() {
      UnknownResult? ==> resultType != 0 && resultType != 1 && resultType != 2
    }
  }

  /** The decoded animation, the fields of `struct JsonToAnimationOptions`. */
  datatype AnimationTable = AnimationTable(sequenceCount: Int32, frameCount: Int32, sequences: seq<SequenceData>,
                                           resultCount: Int32, results: seq<AnimationResult>,
                                           labelEnabled: bool, labelCount: Int32, labels: seq<string>)

  /** What allocated slots hold before the decoder writes to them. */
  const BLANK_FRAME := FrameData(0, 0)
  const BLANK_SEQUENCE := SequenceData(0, 0, 0, 0, 0, [])
  const BLANK_RESULT := IndexResult(0)

  function Field(node: Json, key: string): Int32 {
    GetInt(Lookup(Some(node), key))
  }

  /** json.c:299-303: one entry of a sequence's `frameData`. */
  function DecodeFrame(frame: Json): (r: FrameData)
    ensures r.frameDelay == Field(frame, "frameDelay") && r.resultId == Field(frame, "resultId")
  {
    FrameData(Field(frame, "frameDelay"), Field(frame, "resultId"))
  }

  function FrameFill(): (FrameData, Json) -> Result<FrameData> {
    (_, frame) => Success(DecodeFrame(frame))
  }

  function FrameCount(sequence: Json): Int32 {
    Field(sequence, "frameCount")
  }

  function FrameEntries(sequence: Json): seq<Json> {
    Children(Lookup(Some(sequence), "frameData"))
  }

  function BlankFrames(sequence: Json): seq<FrameData> {
    seq(AllocLength(FrameCount(sequence)), _ => BLANK_FRAME)
  }

  /** json.c:268-309 for one entry of `sequences`: its header scalars, then
      `frameCount` frame slots filled from `frameData`, an overflow being the
      fatal "Sequence frame count is incorrect." */
  function DecodeSequence(sequence: Json): Result<SequenceData> {
    match FillChecked(BlankFrames(sequence), FrameEntries(sequence), FrameFill(), SequenceFrameCountIncorrect)
    case Failure(e) => Failure(e)
    case Success(frames) =>
      Success(SequenceData(FrameCount(sequence), Field(sequence, "loopStartFrame"),
                           Field(sequence, "animationElement"), Field(sequence, "animationType"),
                           Field(sequence, "playbackMode"), frames))
  }

  function SequenceFill(): (SequenceData, Json) -> Result<SequenceData> {
    (_, sequence) => DecodeSequence(sequence)
  }

  /** A sequence fails exactly when its frame list is longer than its
      `frameCount`, and then with the frame-count diagnostic; otherwise its
      frame list has `frameCount` slots, slot j holding the j-th frame and
      the slots after the last frame left blank. */
  lemma SequenceFrames(sequence: Json, j: nat)
    ensures DecodeSequence(sequence).Failure? <==> |FrameEntries(sequence)| > AllocLength(FrameCount(sequence))
    ensures DecodeSequence(sequence).Failure? ==> DecodeSequence(sequence).error == SequenceFrameCountIncorrect
    ensures DecodeSequence(sequence).Success? && j < AllocLength(FrameCount(sequence)) ==>
              var frames := DecodeSequence(sequence).value.frameData;
              |frames| == AllocLength(FrameCount(sequence)) &&
              frames[j] == if j < |FrameEntries(sequence)| then DecodeFrame(FrameEntries(sequence)[j]) else BLANK_FRAME
  {
    var init, entries := BlankFrames(sequence), FrameEntries(sequence);
    FillCheckedOverflow(init, entries, FrameFill(), SequenceFrameCountIncorrect);
    if DecodeSequence(sequence).Success? && j < |init| {
      FillCheckedAt(init, entries, FrameFill(), SequenceFrameCountIncorrect, j);
    }
  }

  /** json.c:328-374: the result record of one entry of `animationResults`,
      its payload selected by `resultType`. */
  function DecodeResult(result: Json): (r: AnimationResult)
    ensures r.ResultType() == Field(result, "resultType") && r.Tagged()
    ensures r.IndexResult? ==> r.index == Field(result, "index")
    ensures r.SrtResult? ==> r == SrtResult(Field(result, "index"), Field(result, "rotation"),
                                            Field(result, "scaleX"), Field(result, "scaleY"),
                                            Field(result, "positionX"), Field(result, "positionY"))
    ensures r.TResult? ==> r == TResult(Field(result, "index"), Field(result, "positionX"), Field(result, "positionY"))
  {
    var resultType := Field(result, "resultType");
    if resultType == 0 then IndexResult(Field(result, "index"))
    else if resultType == 1 then
      SrtResult(Field(result, "index"), Field(result, "rotation"), Field(result, "scaleX"),
                Field(result, "scaleY"), Field(result, "positionX"), Field(result, "positionY"))
    else if resultType == 2 then
      TResult(Field(result, "index"), Field(result, "positionX"), Field(result, "positionY"))
    else UnknownResult(resultType)
  }

  function ResultFill(): (AnimationResult, Json) -> Result<AnimationResult> {
    (_, result) => Success(DecodeResult(result))
  }

  function SequenceCount(json: Option<Json>): Int32 {
    GetInt(Lookup(json, "sequenceCount"))
  }

  function SequenceEntries(json: Option<Json>): seq<Json> {
    Children(Lookup(json, "sequences"))
  }

  function ResultCount(json: Option<Json>): Int32 {
    GetInt(Lookup(json, "resultCount"))
  }

  function ResultEntries(json: Option<Json>): seq<Json> {
    Children(Lookup(json, "animationResults"))
  }

  function BlankSequences(json: Option<Json>): seq<SequenceData> {
    seq(AllocLength(SequenceCount(json)), _ => BLANK_SEQUENCE)
  }

  function BlankResults(json: Option<Json>): seq<AnimationResult> {
    seq(AllocLength(ResultCount(json)), _ => BLANK_RESULT)
  }

  /** The sequence table, or the first fatal diagnostic of its pass. */
  function DecodeSequences(json: Option<Json>): Result<seq<SequenceData>> {
    FillChecked(BlankSequences(json), SequenceEntries(json), SequenceFill(), SequenceCountIncorrect)
  }

  /** The result table, or its overflow diagnostic. */
  function DecodeResults(json: Option<Json>): Result<seq<AnimationResult>> {
    FillChecked(BlankResults(json), ResultEntries(json), ResultFill(), ResultCountIncorrect)
  }

  /** The label table is read only after both count-checked passes, so its
      requirement binds only when neither was fatal. */
  predicate AnimationLabelsDefined(json: Option<Json>) {
    json.Some? && DecodeSequences(json).Success? && DecodeResults(json).Success? ==> LabelsDefined(json)
  }

  /** ParseNANRJson on a parsed tree, as a value. */
  function DecodeNanr(json: Option<Json>): Result<AnimationTable>
    requires AnimationLabelsDefined(json)
  {
    if json.None? then Failure(ParseError)
    else match DecodeSequences(json)
      case Failure(e) => Failure(e)
      case Success(sequences) =>
        match DecodeResults(json)
        case Failure(e) => Failure(e)
        case Success(results) =>
          var enabled := LabelEnabled(json);
          Success(AnimationTable(SequenceCount(json), GetInt(Lookup(json, "frameCount")), sequences,
                                 ResultCount(json), results, enabled,
                                 if enabled then LabelCount(json) else 0,
                                 if enabled then DecodeLabels(json) else []))
  }

  /** The sequence pass stops at its first offending entry `f`: the
      sequence-count diagnostic when `f` is the first entry past
      `sequenceCount`, the frame-count diagnostic when sequence `f`'s frames
      overflow. */
  lemma NanrSequenceFatal(json: Option<Json>, f: nat)
    requires AnimationLabelsDefined(json) && json.Some?
    requires f < |SequenceEntries(json)| && f <= AllocLength(SequenceCount(json))
    requires forall k :: 0 <= k < f ==> DecodeSequence(SequenceEntries(json)[k]).Success?
    requires f < AllocLength(SequenceCount(json)) ==> DecodeSequence(SequenceEntries(json)[f]).Failure?
    ensures DecodeNanr(json) ==
              Failure(if f < AllocLength(SequenceCount(json)) then SequenceFrameCountIncorrect else SequenceCountIncorrect)
  {
    var init, entries := BlankSequences(json), SequenceEntries(json);
    if f < |init| {
      SequenceFrames(entries[f], 0);
    }
    FillCheckedFailsAt(init, entries, SequenceFill(), SequenceCountIncorrect, f, SequenceFrameCountIncorrect);
  }

  /** The decoder fails exactly on an unparsable file, a failing sequence
      pass, or more results than `resultCount`, and a result overflow is the
      result-count diagnostic. */
  lemma NanrOutcome(json: Option<Json>)
    requires AnimationLabelsDefined(json)
    ensures DecodeNanr(json).Failure? <==>
              json.None? || DecodeSequences(json).Failure? || |ResultEntries(json)| > AllocLength(ResultCount(json))
    ensures json.None? ==> DecodeNanr(json) == Failure(ParseError)
    ensures DecodeSequences(json).Success? && json.Some? && |ResultEntries(json)| > AllocLength(ResultCount(json)) ==>
              DecodeNanr(json) == Failure(ResultCountIncorrect)
    ensures DecodeSequences(json).Success? ==>
              |DecodeSequences(json).value| == AllocLength(SequenceCount(json))
  {
    FillCheckedOverflow(BlankResults(json), ResultEntries(json), ResultFill(), ResultCountIncorrect);
  }

  /** After a successful decode, sequence k and result k are the k-th
      entries' decodings, and the slots after the last entry are blank. */
  lemma NanrEntryAt(json: Option<Json>, k: nat)
    requires AnimationLabelsDefined(json) && DecodeNanr(json).Success?
    ensures var t := DecodeNanr(json).value;
            |t.sequences| == AllocLength(SequenceCount(json)) && |t.results| == AllocLength(ResultCount(json))
    ensures var t := DecodeNanr(json).value;
            k < |t.sequences| ==>
              if k < |SequenceEntries(json)| then DecodeSequence(SequenceEntries(json)[k]) == Success(t.sequences[k])
              else t.sequences[k] == BLANK_SEQUENCE
    ensures var t := DecodeNanr(json).value;
            k < |t.results| ==>
              t.results[k] == if k < |ResultEntries(json)| then DecodeResult(ResultEntries(json)[k]) else BLANK_RESULT
  {
    var sequences, results := BlankSequences(json), BlankResults(json);
    if k < |sequences| {
      FillCheckedAt(sequences, SequenceEntries(json), SequenceFill(), SequenceCountIncorrect, k);
    }
    if k < |results| {
      FillCheckedAt(results, ResultEntries(json), ResultFill(), ResultCountIncorrect, k);
    }
  }

  /** The labels appear only when enabled, as the label table; otherwise
      no label is recorded. */
  lemma NanrLabels(json: Option<Json>)
    requires AnimationLabelsDefined(json) && DecodeNanr(json).Success?
    ensures var t := DecodeNanr(json).value;
            t.labelEnabled == LabelEnabled(json) &&
            (t.labelEnabled ==> t.labelCount == LabelCount(json) && t.labels == DecodeLabels(json)) &&
            (!t.labelEnabled ==> t.labelCount == 0 && t.labels == [])
  {
  }

  /** The tree a frame record is written as. */
  function EncodeFrame(frame: FrameData): Json {
    JObj([("frameDelay", JNum(frame.frameDelay)), ("resultId", JNum(frame.resultId))])
  }

  /** The tree a sequence record is written as. */
  function EncodeSequence(sequence: SequenceData): Json {
    JObj([("frameCount", JNum(sequence.frameCount)), ("loopStartFrame", JNum(sequence.loopStartFrame)),
          ("animationElement", JNum(sequence.animationElement)), ("animationType", JNum(sequence.animationType)),
          ("playbackMode", JNum(sequence.playbackMode)),
          ("frameData", JArr(seq(|sequence.frameData|, j requires 0 <= j < |sequence.frameData| =>
                                   EncodeFrame(sequence.frameData[j]))))])
  }

  /** The tree a result record is written as. */
  function EncodeResult(result: AnimationResult): Json {
    match result
    case IndexResult(index) => JObj([("resultType", JNum(0)), ("index", JNum(index))])
    case SrtResult(index, rotation, scaleX, scaleY, positionX, positionY) =>
      JObj([("resultType", JNum(1)), ("index", JNum(index)), ("rotation", JNum(rotation)),
            ("scaleX", JNum(scaleX)), ("scaleY", JNum(scaleY)), ("positionX", JNum(positionX)),
            ("positionY", JNum(positionY))])
    case TResult(index, positionX, positionY) =>
      JObj([("resultType", JNum(2)), ("index", JNum(index)), ("positionX", JNum(positionX)),
            ("positionY", JNum(positionY))])
    case UnknownResult(resultType) => JObj([("resultType", JNum(resultType))])
  }

  /** Every frame record survives being written and decoded. */
  lemma FrameRoundTrip(frame: FrameData)
    ensures DecodeFrame(EncodeFrame(frame)) == frame
  {
    var ms := EncodeFrame(frame).members;
    LookupMember(ms, "frameDelay", 0);
    LookupMember(ms, "resultId", 1);
  }

  /** Every result record whose discriminant matches its arm survives being
      written and decoded. */
  lemma ResultRoundTrip(result: AnimationResult)
    requires result.Tagged()
    ensures DecodeResult(EncodeResult(result)) == result
  {
    var ms := EncodeResult(result).members;
    LookupMember(ms, "resultType", 0);
    match result
    case IndexResult(_) =>
      LookupMember(ms, "index", 1);
    case SrtResult(_, _, _, _, _, _) =>
      SrtMembers(result);
    case TResult(_, _, _) =>
      LookupMember(ms, "index", 1);
      LookupMember(ms, "positionX", 2);
      LookupMember(ms, "positionY", 3);
    case UnknownResult(_) =>
  }

  lemma SrtMembers(result: AnimationResult)
    requires result.SrtResult?
    ensures var node := EncodeResult(result);
            Field(node, "index") == result.index && Field(node, "rotation") == result.rotation &&
            Field(node, "scaleX") == result.scaleX && Field(node, "scaleY") == result.scaleY &&
            Field(node, "positionX") == result.positionX && Field(node, "positionY") == result.positionY
  {
    SrtLookups(EncodeResult(result).members);
  }

  lemma SrtLookups(ms: seq<(string, Json)>)
    requires |ms| == 7 && ms[0].0 == "resultType" && ms[1].0 == "index" && ms[2].0 == "rotation"
    requires ms[3].0 == "scaleX" && ms[4].0 == "scaleY" && ms[5].0 == "positionX" && ms[6].0 == "positionY"
    ensures forall k :: 1 <= k < 7 ==> Lookup(Some(JObj(ms)), ms[k].0) == Some(ms[k].1)
  {
    LookupMember(ms, "index", 1);
    LookupMember(ms, "rotation", 2);
    LookupMember(ms, "scaleX", 3);
    LookupMember(ms, "scaleY", 4);
    LookupMember(ms, "positionX", 5);
    LookupMember(ms, "positionY", 6);
  }

  /** A sequence whose frame list fills its `frameCount` slots exactly
      survives being written and decoded. */
  lemma SequenceRoundTrip(sequence: SequenceData)
    requires |sequence.frameData| == AllocLength(sequence.frameCount)
    ensures DecodeSequence(EncodeSequence(sequence)) == Success(sequence)
  {
    var node := EncodeSequence(sequence);
    SequenceMembers(sequence);
    var entries := FrameEntries(node);
    forall j | 0 <= j < |entries|
      ensures FrameFill()(BlankFrames(node)[j], entries[j]) == Success(sequence.frameData[j])
    {
      FrameRoundTrip(sequence.frameData[j]);
    }
    FillCheckedExact(BlankFrames(node), entries, FrameFill(), SequenceFrameCountIncorrect, sequence.frameData);
  }

  lemma SequenceMembers(sequence: SequenceData)
    ensures var node := EncodeSequence(sequence);
            FrameCount(node) == sequence.frameCount && Field(node, "loopStartFrame") == sequence.loopStartFrame &&
            Field(node, "animationElement") == sequence.animationElement &&
            Field(node, "animationType") == sequence.animationType &&
            Field(node, "playbackMode") == sequence.playbackMode &&
            FrameEntries(node) == node.members[5].1.items
  {
    SequenceLookups(EncodeSequence(sequence).members);
  }

  lemma SequenceLookups(ms: seq<(string, Json)>)
    requires |ms| == 6 && ms[0].0 == "frameCount" && ms[1].0 == "loopStartFrame" && ms[2].0 == "animationElement"
    requires ms[3].0 == "animationType" && ms[4].0 == "playbackMode" && ms[5].0 == "frameData"
    ensures forall k :: 0 <= k < 6 ==> Lookup(Some(JObj(ms)), ms[k].0) == Some(ms[k].1)
  {
    LookupMember(ms, "frameCount", 0);
    LookupMember(ms, "loopStartFrame", 1);
    LookupMember(ms, "animationElement", 2);
    LookupMember(ms, "animationType", 3);
    LookupMember(ms, "playbackMode", 4);
    LookupMember(ms, "frameData", 5);
  }

  /** An animation the decoder can produce: `sequenceCount` sequences, each
      with `frameCount` frames, `resultCount` results whose arm matches their
      discriminant, and the label fields as the decoder leaves them. */
  predicate NanrEncodable(t: AnimationTable) {
    |t.sequences| == AllocLength(t.sequenceCount) &&
    (forall k :: 0 <= k < |t.sequences| ==> |t.sequences[k].frameData| == AllocLength(t.sequences[k].frameCount)) &&
    |t.results| == AllocLength(t.resultCount) &&
    (forall k :: 0 <= k < |t.results| ==> t.results[k].Tagged()) &&
    LabelsFill(t.labelEnabled, t.labelCount, t.labels)
  }

  /** The tree an animation is written as, under the names the decoder
      reads. */
  function EncodeNanr(t: AnimationTable): Json {
    JObj([("sequenceCount", JNum(t.sequenceCount)), ("frameCount", JNum(t.frameCount)),
          ("sequences", JArr(seq(|t.sequences|, k requires 0 <= k < |t.sequences| => EncodeSequence(t.sequences[k])))),
          ("resultCount", JNum(t.resultCount)),
          ("animationResults", JArr(seq(|t.results|, k requires 0 <= k < |t.results| => EncodeResult(t.results[k])))),
          ("labelEnabled", JBool(t.labelEnabled)), ("labelCount", JNum(t.labelCount)),
          ("labels", EncodeLabels(t.labels))])
  }

  /** A whole animation survives being written and decoded: the counts,
      every sequence with its frames, every result and the label table. */
  lemma NanrRoundTrip(t: AnimationTable)
    requires NanrEncodable(t)
    ensures AnimationLabelsDefined(Some(EncodeNanr(t)))
    ensures DecodeNanr(Some(EncodeNanr(t))) == Success(t)
  {
    var json := Some(EncodeNanr(t));
    NanrMembers(t);
    NanrTablesRoundTrip(t);
    if t.labelEnabled {
      LabelsRoundTrip(json, t.labels);
    }
  }

  /** The two count-checked tables of an encoded animation decode back to
      the animation's own. */
  lemma NanrTablesRoundTrip(t: AnimationTable)
    requires NanrEncodable(t)
    ensures DecodeSequences(Some(EncodeNanr(t))) == Success(t.sequences)
    ensures DecodeResults(Some(EncodeNanr(t))) == Success(t.results)
  {
    NanrSequencesRoundTrip(t);
    NanrResultsRoundTrip(t);
  }

  lemma NanrSequencesRoundTrip(t: AnimationTable)
    requires NanrEncodable(t)
    ensures DecodeSequences(Some(EncodeNanr(t))) == Success(t.sequences)
  {
    var json := Some(EncodeNanr(t));
    NanrMembers(t);
    var sequences := SequenceEntries(json);
    forall k | 0 <= k < |sequences|
      ensures SequenceFill()(BlankSequences(json)[k], sequences[k]) == Success(t.sequences[k])
    {
      SequenceRoundTrip(t.sequences[k]);
    }
    FillCheckedExact(BlankSequences(json), sequences, SequenceFill(), SequenceCountIncorrect, t.sequences);
  }

  lemma NanrResultsRoundTrip(t: AnimationTable)
    requires NanrEncodable(t)
    ensures DecodeResults(Some(EncodeNanr(t))) == Success(t.results)
  {
    var json := Some(EncodeNanr(t));
    NanrMembers(t);
    var results := ResultEntries(json);
    forall k | 0 <= k < |results|
      ensures ResultFill()(BlankResults(json)[k], results[k]) == Success(t.results[k])
    {
      ResultRoundTrip(t.results[k]);
    }
    FillCheckedExact(BlankResults(json), results, ResultFill(), ResultCountIncorrect, t.results);
  }

  /** What the decoder reads from an encoded animation. */
  lemma NanrMembers(t: AnimationTable)
    ensures var json := Some(EncodeNanr(t));
            SequenceCount(json) == t.sequenceCount && GetInt(Lookup(json, "frameCount")) == t.frameCount &&
            SequenceEntries(json) == EncodeNanr(t).members[2].1.items &&
            ResultCount(json) == t.resultCount && ResultEntries(json) == EncodeNanr(t).members[4].1.items &&
            LabelEnabled(json) == t.labelEnabled && LabelCount(json) == t.labelCount &&
            LabelEntries(json) == EncodeLabels(t.labels).items
  {
    NanrLookups(EncodeNanr(t).members);
  }

  lemma NanrLookups(ms: seq<(string, Json)>)
    requires |ms| == 8 && ms[0].0 == "sequenceCount" && ms[1].0 == "frameCount" && ms[2].0 == "sequences"
    requires ms[3].0 == "resultCount" && ms[4].0 == "animationResults" && ms[5].0 == "labelEnabled"
    requires ms[6].0 == "labelCount" && ms[7].0 == "labels"
    ensures Lookup(Some(JObj(ms)), "sequenceCount") == Some(ms[0].1) && Lookup(Some(JObj(ms)), "frameCount") == Some(ms[1].1)
    ensures Lookup(Some(JObj(ms)), "sequences") == Some(ms[2].1) && Lookup(Some(JObj(ms)), "resultCount") == Some(ms[3].1)
    ensures Lookup(Some(JObj(ms)), "animationResults") == Some(ms[4].1) && Lookup(Some(JObj(ms)), "labelEnabled") == Some(ms[5].1)
    ensures Lookup(Some(JObj(ms)), "labelCount") == Some(ms[6].1) && Lookup(Some(JObj(ms)), "labels") == Some(ms[7].1)
  {
    LookupMember(ms, "sequenceCount", 0);
    LookupMember(ms, "frameCount", 1);
    LookupMember(ms, "sequences", 2);
    LookupMember(ms, "resultCount", 3);
    LookupMember(ms, "animationResults", 4);
    LookupMember(ms, "labelEnabled", 5);
    LookupMember(ms, "labelCount", 6);
    LookupMember(ms, "labels", 7);
  }

  /** `struct JsonToAnimationOptions` as the decoder fills it. */
  class JsonToAnimationOptions {
    var sequenceCount: Int32
    var frameCount: Int32
    var sequenceData: array<SequenceData>
    var resultCount: Int32
    var animationResults: array<AnimationResult>
    var labelEnabled: bool
    var labelCount: Int32
    var labels: array<string>

    constructor (sequenceCount: Int32, frameCount: Int32, sequenceData: array<SequenceData>, resultCount: Int32,
                 animationResults: array<AnimationResult>, labelEnabled: bool, labelCount: Int32,
                 labels: array<string>)
      ensures this.sequenceCount == sequenceCount && this.frameCount == frameCount
      ensures this.sequenceData == sequenceData && this.resultCount == resultCount
      ensures this.animationResults == animationResults && this.labelEnabled == labelEnabled
      ensures this.labelCount == labelCount && this.labels == labels
    {
      this.sequenceCount, this.frameCount, this.sequenceData := sequenceCount, frameCount, sequenceData;
      this.resultCount, this.animationResults := resultCount, animationResults;
      this.labelEnabled, this.labelCount, this.labels := labelEnabled, labelCount, labels;
    }

    /** The record's contents as a value. */
    ghost function Value(): AnimationTable
      reads this, sequenceData, animationResults, labels
    {
      AnimationTable(sequenceCount, frameCount, sequenceData[..], resultCount, animationResults[..],
                     labelEnabled, labelCount, labels[..])
    }
  }

  /** ParseNANRJson on a parsed tree: the record it returns, or the fatal
      diagnostic that ends the run. */
  method ParseNanrJson(json: Option<Json>) returns (r: Result<JsonToAnimationOptions>)
    requires AnimationLabelsDefined(json)
    ensures r.Failure? ==> DecodeNanr(json) == Failure(r.error)
    ensures r.Success? ==> fresh(r.value) && fresh(r.value.sequenceData) && fresh(r.value.animationResults) &&
                           fresh(r.value.labels) && DecodeNanr(json) == Success(r.value.Value())
  {
    if json.None? {
      return Failure(ParseError);
    }
    var frameCount := GetInt(Lookup(json, "frameCount"));
    var sequenceCount, sequenceData, status := ReadSequenceTable(json);
    if status.Failure? {
      return Failure(status.error);
    }
    var resultCount, animationResults, status' := ReadResultTable(json);
    if status'.Failure? {
      return Failure(status'.error);
    }
    var labelEnabled := GetBool(Lookup(json, "labelEnabled"));
    var labelCount, labels := 0, new string[0];
    if labelEnabled {
      labelCount, labels := ReadLabels(json);
    }
    var options := new JsonToAnimationOptions(sequenceCount, frameCount, sequenceData, resultCount,
                                              animationResults, labelEnabled, labelCount, labels);
    assert options.labels[..] == if labelEnabled then DecodeLabels(json) else [];
    return Success(options);
  }

  /** json.c:250-309: `sequenceCount` is read, the sequence table allocated
      and filled. */
  method ReadSequenceTable(json: Option<Json>)
    returns (sequenceCount: Int32, sequenceData: array<SequenceData>, status: Result<()>)
    ensures fresh(sequenceData) && sequenceCount == SequenceCount(json)
    ensures DecodeSequences(json) == if status.Success? then Success(sequenceData[..]) else Failure(status.error)
  {
    sequenceCount := GetInt(Lookup(json, "sequenceCount"));
    sequenceData := new SequenceData[AllocLength(sequenceCount)](_ => BLANK_SEQUENCE);
    assert sequenceData[..] == BlankSequences(json);
    status := FillSequences(sequenceData, sequenceCount, Children(Lookup(json, "sequences")));
  }

  /** json.c:313-374: `resultCount` is read, the result table allocated and
      filled. */
  method ReadResultTable(json: Option<Json>)
    returns (resultCount: Int32, animationResults: array<AnimationResult>, status: Result<()>)
    ensures fresh(animationResults) && resultCount == ResultCount(json)
    ensures DecodeResults(json) == if status.Success? then Success(animationResults[..]) else Failure(status.error)
  {
    resultCount := GetInt(Lookup(json, "resultCount"));
    animationResults := new AnimationResult[AllocLength(resultCount)](_ => BLANK_RESULT);
    assert animationResults[..] == BlankResults(json);
    status := FillResults(animationResults, resultCount, Children(Lookup(json, "animationResults")));
  }

  /** The sequence loop of json.c:262-309 over the allocated table: fatal at
      the entry whose index reaches `sequenceCount`, or at a sequence whose
      frames overflow. */
  method FillSequences(sequenceData: array<SequenceData>, sequenceCount: Int32, entries: seq<Json>)
    returns (status: Result<()>)
    requires sequenceData.Length == AllocLength(sequenceCount)
    modifies sequenceData
    ensures FillChecked(old(sequenceData[..]), entries, SequenceFill(), SequenceCountIncorrect)
            == (if status.Success? then Success(sequenceData[..]) else Failure(status.error))
  {
    ghost var blank := sequenceData[..];
    var i := 0;
    while i < |entries|
      invariant 0 <= i <= |entries|
      invariant FillChecked(blank, entries[..i], SequenceFill(), SequenceCountIncorrect) == Success(sequenceData[..])
    {
      FillCheckedStep(blank, entries, SequenceFill(), SequenceCountIncorrect, i, sequenceData[..]);
      if i > sequenceCount - 1 {
        FillCheckedAbort(blank, entries, SequenceFill(), SequenceCountIncorrect, i + 1);
        return Failure(SequenceCountIncorrect);
      }
      var sequence := ReadSequence(entries[i]);
      if sequence.Failure? {
        FillCheckedAbort(blank, entries, SequenceFill(), SequenceCountIncorrect, i + 1);
        return Failure(sequence.error);
      }
      sequenceData[i] := sequence.value;
      i := i + 1;
    }
    assert entries[..i] == entries;
    return Success(());
  }

  /** json.c:268-307 for one sequence: its scalars, then its frame list. */
  method ReadSequence(sequence: Json) returns (r: Result<SequenceData>)
    ensures r == DecodeSequence(sequence)
  {
    var frameCount := GetInt(Lookup(Some(sequence), "frameCount"));
    var loopStartFrame := GetInt(Lookup(Some(sequence), "loopStartFrame"));
    var animationElement := GetInt(Lookup(Some(sequence), "animationElement"));
    var animationType := GetInt(Lookup(Some(sequence), "animationType"));
    var playbackMode := GetInt(Lookup(Some(sequence), "playbackMode"));
    var frames := ReadFrames(frameCount, Children(Lookup(Some(sequence), "frameData")));
    if frames.Failure? {
      return Failure(frames.error);
    }
    return Success(SequenceData(frameCount, loopStartFrame, animationElement, animationType, playbackMode,
                                frames.value));
  }

  /** The frame loop of json.c:285-307: `frameCount` slots, fatal at the
      entry whose index reaches `frameCount`. */
  method ReadFrames(frameCount: Int32, entries: seq<Json>) returns (r: Result<seq<FrameData>>)
    ensures r == FillChecked(seq(AllocLength(frameCount), _ => BLANK_FRAME), entries, FrameFill(),
                             SequenceFrameCountIncorrect)
  {
    var frameData := new FrameData[AllocLength(frameCount)](_ => BLANK_FRAME);
    ghost var blank := frameData[..];
    assert blank == seq(AllocLength(frameCount), _ => BLANK_FRAME);
    var j := 0;
    while j < |entries|
      invariant 0 <= j <= |entries|
      invariant FillChecked(blank, entries[..j], FrameFill(), SequenceFrameCountIncorrect) == Success(frameData[..])
    {
      FillCheckedStep(blank, entries, FrameFill(), SequenceFrameCountIncorrect, j, frameData[..]);
      if j > frameCount - 1 {
        FillCheckedAbort(blank, entries, FrameFill(), SequenceFrameCountIncorrect, j + 1);
        return Failure(SequenceFrameCountIncorrect);
      }
      var frameDelay := GetInt(Lookup(Some(entries[j]), "frameDelay"));
      var resultId := GetInt(Lookup(Some(entries[j]), "resultId"));
      frameData[j] := FrameData(frameDelay, resultId);
      j := j + 1;
    }
    assert entries[..j] == entries;
    return Success(frameData[..]);
  }

  /** The result loop of json.c:313-374 over the allocated table: fatal at
      the entry whose index reaches `resultCount`. */
  method FillResults(animationResults: array<AnimationResult>, resultCount: Int32, entries: seq<Json>)
    returns (status: Result<()>)
    requires animationResults.Length == AllocLength(resultCount)
    modifies animationResults
    ensures FillChecked(old(animationResults[..]), entries, ResultFill(), ResultCountIncorrect)
            == (if status.Success? then Success(animationResults[..]) else Failure(status.error))
  {
    ghost var blank := animationResults[..];
    var i := 0;
    while i < |entries|
      invariant 0 <= i <= |entries|
      invariant FillChecked(blank, entries[..i], ResultFill(), ResultCountIncorrect) == Success(animationResults[..])
    {
      FillCheckedStep(blank, entries, ResultFill(), ResultCountIncorrect, i, animationResults[..]);
      if i > resultCount - 1 {
        FillCheckedAbort(blank, entries, ResultFill(), ResultCountIncorrect, i + 1);
        return Failure(ResultCountIncorrect);
      }
      var result := ReadResult(entries[i]);
      animationResults[i] := result;
      i := i + 1;
    }
    assert entries[..i] == entries;
    return Success(());
  }

  /** json.c:331-371: the switch on `resultType`. */
  method ReadResult(result: Json) returns (r: AnimationResult)
    ensures r == DecodeResult(result)
  {
    var resultType := GetInt(Lookup(Some(result), "resultType"));
    match resultType {
      case 0 =>
        r := IndexResult(GetInt(Lookup(Some(result), "index")));
      case 1 =>
        r := SrtResult(GetInt(Lookup(Some(result), "index")), GetInt(Lookup(Some(result), "rotation")),
                       GetInt(Lookup(Some(result), "scaleX")), GetInt(Lookup(Some(result), "scaleY")),
                       GetInt(Lookup(Some(result), "positionX")), GetInt(Lookup(Some(result), "positionY")));
      case 2 =>
        r := TResult(GetInt(Lookup(Some(result), "index")), GetInt(Lookup(Some(result), "positionX")),
                     GetInt(Lookup(Some(result), "positionY")));
      case _ =>
        r := UnknownResult(resultType);
    }
  }
}
