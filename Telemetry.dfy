/** Values that flow through the safe-monitoring dashboard: the bus topics it
    listens to, the messages taken off the bus, the rows of the safe-status
    table and the entries of the two prediction logs. */
module Telemetry {

  datatype Option<+T> = None | Some(value: T)

  /** A value produced by Python's `float()`: a finite number, an infinity,
      or NaN. NaN is also what a fresh row holds until a distance arrives. */
  datatype Float = NaN | Infinite(negative: bool) | Finite(value: real)

  /** One row of the safe-status table ("data_brankas"). `distance` is the
      "Jarak (cm)" column, `pir` the "PIR" column (None stands for NaN),
      `face`/`voice` the two prediction columns and `verdict` the derived
      "Label Prediksi" column. */
  datatype Row = Row(
    timestamp: string,
    status: string,
    distance: Float,
    pir: Option<int>,
    face: string,
    voice: string,
    verdict: string)

  /** One entry of the face or voice prediction log ("data_face", "data_voice"). */
  datatype LogEntry = LogEntry(timestamp: string, result: string, status: string, note: string)

  /** A bus message as it sits in the inbound queue: topic, decoded payload
      and the wall-clock time at which it was received, already formatted. */
  datatype Event = Event(topic: string, payload: string, time: string)

  /** The two partial number parsers the merge step relies on: Python's
      `float()` and `int()` applied to a payload; None stands for ValueError. */
  datatype Parsers = Parsers(toFloat: string -> Option<Float>, toInt: string -> Option<int>)

  // Bus topics the dashboard dispatches on.
  const StatusTopic := "data/status/kontrol"
  const FaceTopic := "ai/face/result"
  const VoiceTopic := "ai/voice/result"
  const PhotoTopic := "/iot/camera/photo"
  const DistanceTopic := "data/dist/kontrol"
  const PirTopic := "data/pir/kontrol"
  const AudioTopic := "data/audio/link"

  /** Placeholder held by the face and voice columns of a row that has not
      received a prediction yet. */
  const Waiting := "Menunggu..."
  /** Label a row carries between being appended and the end-of-batch relabel. */
  const NotProcessed := "Belum Diproses"

  /** `sub` occurs in `s` starting at position `i`. */
  predicate OccursAt(s: string, sub: string, i: int) {
    0 <= i <= |s| - |sub| && s[i..i + |sub|] == sub
  }

  /** Python's substring test `sub in s`. */
  function Contains(s: string, sub: string): (b: bool)
    ensures b <==> exists i :: OccursAt(s, sub, i)
    decreases |s|
  {
    if sub <= s then
      assert OccursAt(s, sub, 0);
      true
    else if |s| <= |sub| then
      false
    else
      var b := Contains(s[1..], sub);
      assert forall i :: OccursAt(s[1..], sub, i) ==> OccursAt(s, sub, i + 1);
      assert forall i :: OccursAt(s, sub, i) && i > 0 ==> OccursAt(s[1..], sub, i - 1);
      assert !OccursAt(s, sub, 0);
      b
  }
}
