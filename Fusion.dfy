/** The merge step of the dashboard as values: how one bus message changes
    the safe-status table, the two prediction logs and the two media links,
    how a drained batch is applied in arrival order, and how the batch ends
    by recomputing every row's verdict. */
module Fusion {
  import opened Telemetry
  import opened Verdict

  /** Everything the merge step owns: the safe-status table, the face and
      voice logs, the latest photo link and the latest audio link (None
      until the first audio link arrives). */
  datatype Snapshot = Snapshot(
    rows: seq<Row>,
    faceLog: seq<LogEntry>,
    voiceLog: seq<LogEntry>,
    photoUrl: string,
    audioUrl: Option<string>)

  /** The state after applying messages, with the "something changed" flag. */
  datatype Step = Step(snapshot: Snapshot, changed: bool)

  /** Image shown until the first photo link arrives. */
  const PhotoPlaceholder := "https://via.placeholder.com/640x480?text=Menunggu+Foto"

  /** The state of a freshly opened dashboard. */
  function Initial(): (s: Snapshot)
    ensures s.rows == [] && s.faceLog == [] && s.voiceLog == [] && s.audioUrl == None
  {
    Snapshot([], [], [], PhotoPlaceholder, None)
  }

  /** The row a status message opens: the payload verbatim as status, both
      readings NaN, both predictions waiting, and not yet labelled. */
  function OpenedRow(e: Event): Row {
    Row(e.time, e.payload, NaN, None, Waiting, Waiting, NotProcessed)
  }

  /** The audit entry a face or voice result adds to its log. */
  function LiveResult(e: Event): LogEntry {
    LogEntry(e.time, e.payload, "Success", "MQTT Live Result")
  }

  function DigitChar(d: nat): char
    requires d < 10
  {
    "0123456789"[d]
  }

  /** A string of decimal digits. */
  predicate IsDigits(s: string) {
    forall i :: 0 <= i < |s| ==> '0' <= s[i] <= '9'
  }

  /** The number a string of decimal digits denotes, most significant first. */
  function DigitsValue(s: string): nat
    requires IsDigits(s)
  {
    if s == [] then 0 else DigitsValue(s[..|s| - 1]) * 10 + (s[|s| - 1] as int - '0' as int)
  }

  /** Python's `str()` of a non-negative integer: the digits that denote
      `n`, without leading zeros. */
  function Decimal(n: nat): (r: string)
    ensures |r| >= 1 && IsDigits(r) && DigitsValue(r) == n
    ensures |r| == 1 || r[0] != '0'
  {
    if n < 10 then [DigitChar(n)]
    else
      var r := Decimal(n / 10) + [DigitChar(n % 10)];
      assert r[..|r| - 1] == Decimal(n / 10);
      r
  }

  /** A media link with the cache-busting suffix `?t=<now>`. */
  function CacheBusted(url: string, now: nat): (r: string)
    ensures url <= r && |r| > |url| + 3 && r[|url|..|url| + 3] == "?t="
    ensures IsDigits(r[|url| + 3..]) && DigitsValue(r[|url| + 3..]) == now
    ensures |r| == |url| + 4 || r[|url| + 3] != '0'
  {
    var r := url + "?t=" + Decimal(now);
    assert r[|url| + 3..] == Decimal(now);
    r
  }

  /** The table with its last row replaced. */
  function WithLast(rows: seq<Row>, row: Row): (r: seq<Row>)
    requires rows != []
    ensures |r| == |rows| && r[..|rows| - 1] == rows[..|rows| - 1] && r[|rows| - 1] == row
  {
    rows[|rows| - 1 := row]
  }

  /** One message applied to the state. A status message always opens a new
      row; any other message is dropped while the table is empty; otherwise it
      updates the last row, a log or a media link. */
  function Apply(s: Snapshot, e: Event, p: Parsers, now: nat): (t: Step)
    ensures e.topic == StatusTopic ==> t.changed
    ensures e.topic != StatusTopic && s.rows == [] ==> t == Step(s, false)
  {
    if e.topic == StatusTopic then
      Step(s.(rows := s.rows + [OpenedRow(e)]), true)
    else if s.rows == [] then
      Step(s, false)
    else
      var last := s.rows[|s.rows| - 1];
      if e.topic == DistanceTopic then
        match p.toFloat(e.payload)
        case Some(d) => Step(s.(rows := WithLast(s.rows, last.(distance := d))), true)
        case None => Step(s, false)
      else if e.topic == PirTopic then
        match p.toInt(e.payload)
        case Some(n) => Step(s.(rows := WithLast(s.rows, last.(pir := Some(n)))), true)
        case None => Step(s, false)
      else if e.topic == FaceTopic then
        Step(s.(rows := WithLast(s.rows, last.(face := e.payload)),
                faceLog := s.faceLog + [LiveResult(e)]), true)
      else if e.topic == VoiceTopic then
        Step(s.(rows := WithLast(s.rows, last.(voice := e.payload)),
                voiceLog := s.voiceLog + [LiveResult(e)]), true)
      else if e.topic == PhotoTopic then
        Step(s.(photoUrl := CacheBusted(e.payload, now)), true)
      else if e.topic == AudioTopic then
        Step(s.(audioUrl := Some(CacheBusted(e.payload, now))), true)
      else
        Step(s, false)
  }

  /** The messages applied one after another in arrival order; the flag is
      set when any of them set it. */
  function Merge(s: Snapshot, es: seq<Event>, p: Parsers, now: nat): (r: Step)
    ensures |s.rows| <= |r.snapshot.rows|
    ensures s.faceLog <= r.snapshot.faceLog && s.voiceLog <= r.snapshot.voiceLog
    ensures es == [] ==> r == Step(s, false)
    decreases |es|
  {
    if es == [] then Step(s, false)
    else
      var before := Merge(s, es[..|es| - 1], p, now);
      var t := Apply(before.snapshot, es[|es| - 1], p, now);
      Step(t.snapshot, before.changed || t.changed)
  }

  /** Every row carries the verdict of its own fields. */
  ghost predicate Labelled(rows: seq<Row>) {
    forall i :: 0 <= i < |rows| ==> rows[i].verdict == Classify(rows[i])
  }

  /** A row with its derived verdict blanked out. */
  function Data(r: Row): Row {
    r.(verdict := "")
  }

  /** Two tables hold the same rows, verdicts aside. */
  ghost predicate SameData(a: seq<Row>, b: seq<Row>) {
    |a| == |b| && forall i :: 0 <= i < |a| ==> Data(a[i]) == Data(b[i])
  }

  /** The whole-table recomputation of the verdict column. */
  function Relabel(rows: seq<Row>): (r: seq<Row>)
    ensures Labelled(r) && SameData(rows, r)
  {
    seq(|rows|, i requires 0 <= i < |rows| => rows[i].(verdict := Classify(rows[i])))
  }

  /** One call of the merge step on the drained queue: nothing at all when
      the queue is empty; otherwise every message in order, then the verdict
      column recomputed when the table is not empty. */
  function Process(s: Snapshot, queue: seq<Event>, p: Parsers, now: nat): (r: Step)
    ensures queue == [] ==> r == Step(s, false)
    ensures queue != [] ==> Labelled(r.snapshot.rows)
    ensures |s.rows| <= |r.snapshot.rows|
    ensures s.faceLog <= r.snapshot.faceLog && s.voiceLog <= r.snapshot.voiceLog
  {
    if queue == [] then Step(s, false)
    else
      var m := Merge(s, queue, p, now);
      if m.snapshot.rows == [] then m
      else Step(m.snapshot.(rows := Relabel(m.snapshot.rows)), m.changed)
  }

  // ---------------------------------------------------------------------
  // One message

  /** A status message appends exactly one row, the opened row, and changes
      nothing else. */
  lemma StatusAppendsOneRow(s: Snapshot, e: Event, p: Parsers, now: nat)
    requires e.topic == StatusTopic
    ensures var t := Apply(s, e, p, now);
      t.changed &&
      |t.snapshot.rows| == |s.rows| + 1 &&
      t.snapshot.rows[..|s.rows|] == s.rows &&
      t.snapshot.rows[|s.rows|] == OpenedRow(e) &&
      t.snapshot.faceLog == s.faceLog && t.snapshot.voiceLog == s.voiceLog &&
      t.snapshot.photoUrl == s.photoUrl && t.snapshot.audioUrl == s.audioUrl
  {
  }

  /** The opened row: status verbatim, no readings, both predictions waiting;
      its verdict is decided by the status alone. */
  lemma OpenedRowVerdict(e: Event)
    ensures OpenedRow(e).status == e.payload && OpenedRow(e).distance == NaN && OpenedRow(e).pir == None
    ensures OpenedRow(e).face == Waiting && OpenedRow(e).voice == Waiting
    ensures Classify(OpenedRow(e)) ==
      if Contains(e.payload, ForcedOpen) then Breached
      else if Contains(e.payload, OpenedSafely) then Legitimate
      else Safe
  {
    WaitingIsNotSuspect();
  }

  /** Any other message touches at most the last row: the row count and
      every earlier row stay as they were. */
  lemma OtherTouchesOnlyLastRow(s: Snapshot, e: Event, p: Parsers, now: nat)
    requires e.topic != StatusTopic
    ensures var t := Apply(s, e, p, now);
      |t.snapshot.rows| == |s.rows| &&
      (s.rows != [] ==> t.snapshot.rows[..|s.rows| - 1] == s.rows[..|s.rows| - 1])
  {
  }

  /** A distance or PIR payload that does not parse changes nothing and
      does not set the flag; one that parses overwrites the last row's
      field and sets it. Either way the logs and the links stay as they were. */
  lemma ReadingUpdate(s: Snapshot, e: Event, p: Parsers, now: nat)
    requires s.rows != []
    requires e.topic == DistanceTopic || e.topic == PirTopic
    ensures var t := Apply(s, e, p, now);
      var n := |s.rows|;
      if e.topic == DistanceTopic then
        (p.toFloat(e.payload) == None ==> t == Step(s, false)) &&
        (p.toFloat(e.payload) != None ==> t.changed && t.snapshot.rows[n - 1] == s.rows[n - 1].(distance := p.toFloat(e.payload).value))
      else
        (p.toInt(e.payload) == None ==> t == Step(s, false)) &&
        (p.toInt(e.payload) != None ==> t.changed && t.snapshot.rows[n - 1] == s.rows[n - 1].(pir := p.toInt(e.payload)))
    ensures var t := Apply(s, e, p, now);
      t.snapshot.faceLog == s.faceLog && t.snapshot.voiceLog == s.voiceLog &&
      t.snapshot.photoUrl == s.photoUrl && t.snapshot.audioUrl == s.audioUrl
  {
  }

  /** A face result on a non-empty table sets the last row's face, adds one
      entry to the face log and leaves the voice log and the links alone;
      a voice result does the same on the voice side. */
  lemma PredictionUpdate(s: Snapshot, e: Event, p: Parsers, now: nat)
    requires s.rows != []
    requires e.topic == FaceTopic || e.topic == VoiceTopic
    ensures var t := Apply(s, e, p, now);
      var n := |s.rows|;
      t.changed && t.snapshot.photoUrl == s.photoUrl && t.snapshot.audioUrl == s.audioUrl &&
      if e.topic == FaceTopic then
        t.snapshot.rows[n - 1] == s.rows[n - 1].(face := e.payload) &&
        t.snapshot.faceLog == s.faceLog + [LogEntry(e.time, e.payload, "Success", "MQTT Live Result")] &&
        t.snapshot.voiceLog == s.voiceLog
      else
        t.snapshot.rows[n - 1] == s.rows[n - 1].(voice := e.payload) &&
        t.snapshot.voiceLog == s.voiceLog + [LogEntry(e.time, e.payload, "Success", "MQTT Live Result")] &&
        t.snapshot.faceLog == s.faceLog
  {
  }

  /** A photo or audio link on a non-empty table replaces that link (with the
      cache-busting suffix) and leaves the table and the logs alone. */
  lemma LinkUpdate(s: Snapshot, e: Event, p: Parsers, now: nat)
    requires s.rows != []
    requires e.topic == PhotoTopic || e.topic == AudioTopic
    ensures var t := Apply(s, e, p, now);
      t.changed && t.snapshot.rows == s.rows && t.snapshot.faceLog == s.faceLog && t.snapshot.voiceLog == s.voiceLog &&
      if e.topic == PhotoTopic then
        t.snapshot.photoUrl == e.payload + "?t=" + Decimal(now) && t.snapshot.audioUrl == s.audioUrl
      else
        t.snapshot.audioUrl == Some(e.payload + "?t=" + Decimal(now)) && t.snapshot.photoUrl == s.photoUrl
  {
  }

  // ---------------------------------------------------------------------
  // A batch

  /** The number of status messages in a batch. */
  function StatusCount(es: seq<Event>): (n: nat)
    ensures n <= |es|
  {
    if es == [] then 0
    else StatusCount(es[..|es| - 1]) + (if es[|es| - 1].topic == StatusTopic then 1 else 0)
  }

  /** A batch grows the table by exactly its number of status messages, and
      never rewrites a row that was already frozen (every row but the last). */
  lemma {:induction false} MergeAppendsOnly(s: Snapshot, es: seq<Event>, p: Parsers, now: nat)
    ensures var r := Merge(s, es, p, now).snapshot.rows;
      |r| == |s.rows| + StatusCount(es) &&
      (s.rows != [] ==> r[..|s.rows| - 1] == s.rows[..|s.rows| - 1])
    decreases |es|
  {
    if es != [] {
      var init := es[..|es| - 1];
      MergeAppendsOnly(s, init, p, now);
      var before := Merge(s, init, p, now).snapshot;
      var e := es[|es| - 1];
      if e.topic == StatusTopic {
        StatusAppendsOneRow(before, e, p, now);
        if s.rows != [] {
          assert Merge(s, es, p, now).snapshot.rows[..|s.rows| - 1] == before.rows[..|s.rows| - 1];
        }
      } else {
        OtherTouchesOnlyLastRow(before, e, p, now);
        if s.rows != [] && before.rows != [] {
          var after := Merge(s, es, p, now).snapshot.rows;
          assert after[..|before.rows| - 1] == before.rows[..|before.rows| - 1];
          assert after[..|s.rows| - 1] == after[..|before.rows| - 1][..|s.rows| - 1];
        }
      }
    }
  }

  /** On an empty table a batch without status messages changes nothing at
      all: no row, no log entry, no link, and the flag stays clear. */
  lemma {:induction false} MergeDropsWithoutTable(s: Snapshot, es: seq<Event>, p: Parsers, now: nat)
    requires s.rows == [] && StatusCount(es) == 0
    ensures Merge(s, es, p, now) == Step(s, false)
    decreases |es|
  {
    if es != [] {
      MergeDropsWithoutTable(s, es[..|es| - 1], p, now);
    }
  }

  /** Applying two batches one after the other is applying their
      concatenation: messages are consumed once each, in arrival order. */
  lemma {:induction false} MergeConcat(s: Snapshot, a: seq<Event>, b: seq<Event>, p: Parsers, now: nat)
    ensures var m := Merge(s, a, p, now);
      var n := Merge(m.snapshot, b, p, now);
      Merge(s, a + b, p, now) == Step(n.snapshot, m.changed || n.changed)
    decreases |b|
  {
    if b != [] {
      var b' := b[..|b| - 1];
      assert (a + b)[..|a + b| - 1] == a + b';
      assert (a + b)[|a + b| - 1] == b[|b| - 1];
      MergeConcat(s, a, b', p, now);
    } else {
      assert a + b == a;
    }
  }

  /** Blanking every verdict. */
  function Stripped(s: Snapshot): Snapshot {
    s.(rows := seq(|s.rows|, i requires 0 <= i < |s.rows| => Data(s.rows[i])))
  }

  lemma StrippedSame(s: Snapshot, s': Snapshot)
    ensures Stripped(s) == Stripped(s') <==>
      SameData(s.rows, s'.rows) && s.faceLog == s'.faceLog && s.voiceLog == s'.voiceLog &&
      s.photoUrl == s'.photoUrl && s.audioUrl == s'.audioUrl
  {
    if SameData(s.rows, s'.rows) {
      assert Stripped(s).rows == Stripped(s').rows;
    }
    if Stripped(s) == Stripped(s') {
      assert forall i :: 0 <= i < |s.rows| ==> Stripped(s).rows[i] == Data(s.rows[i]);
    }
  }

  /** A message acts on a row's data only: two states that differ in their
      verdicts alone stay so, and set the same flag. */
  lemma ApplyIgnoresVerdicts(s: Snapshot, s': Snapshot, e: Event, p: Parsers, now: nat)
    requires Stripped(s) == Stripped(s')
    ensures Stripped(Apply(s, e, p, now).snapshot) == Stripped(Apply(s', e, p, now).snapshot)
    ensures Apply(s, e, p, now).changed == Apply(s', e, p, now).changed
  {
    StrippedSame(s, s');
    var t, t' := Apply(s, e, p, now).snapshot, Apply(s', e, p, now).snapshot;
    if e.topic == StatusTopic {
      assert SameData(t.rows, t'.rows) by {
        assert forall i :: 0 <= i < |s.rows| ==> t.rows[i] == s.rows[i] && t'.rows[i] == s'.rows[i];
      }
    } else if s.rows != [] {
      var n := |s.rows| - 1;
      assert Data(s.rows[n]) == Data(s'.rows[n]);
      assert SameData(t.rows, t'.rows);
    }
    StrippedSame(t, t');
  }

  lemma {:induction false} MergeIgnoresVerdicts(s: Snapshot, s': Snapshot, es: seq<Event>, p: Parsers, now: nat)
    requires Stripped(s) == Stripped(s')
    ensures Stripped(Merge(s, es, p, now).snapshot) == Stripped(Merge(s', es, p, now).snapshot)
    ensures Merge(s, es, p, now).changed == Merge(s', es, p, now).changed
    decreases |es|
  {
    if es != [] {
      var init := es[..|es| - 1];
      MergeIgnoresVerdicts(s, s', init, p, now);
      ApplyIgnoresVerdicts(Merge(s, init, p, now).snapshot, Merge(s', init, p, now).snapshot, es[|es| - 1], p, now);
    }
  }

  /** The recomputed verdict column depends on the rows' data only. */
  lemma RelabelIgnoresVerdicts(a: seq<Row>, b: seq<Row>)
    requires SameData(a, b)
    ensures Relabel(a) == Relabel(b)
  {
  }

  // ---------------------------------------------------------------------
  // The merge step

  /** Recomputing the verdicts of a labelled table changes nothing, so the
      recomputation is idempotent. */
  lemma RelabelIdempotent(rows: seq<Row>)
    ensures Labelled(rows) ==> Relabel(rows) == rows
    ensures Relabel(Relabel(rows)) == Relabel(rows)
  {
  }

  /** Batch-size independence: handling one batch and then another leaves
      the same state, and reports the same flag, as handling their
      concatenation in one go. */
  lemma {:induction false} ProcessSplit(s: Snapshot, a: seq<Event>, b: seq<Event>, p: Parsers, now: nat)
    ensures var first := Process(s, a, p, now);
      var second := Process(first.snapshot, b, p, now);
      Process(s, a + b, p, now) == Step(second.snapshot, first.changed || second.changed)
  {
    if a == [] {
      assert a + b == b;
      return;
    }
    if b == [] {
      assert a + b == a;
      return;
    }
    var m := Merge(s, a, p, now);
    var first := Process(s, a, p, now);
    MergeConcat(s, a, b, p, now);
    // `first` differs from `m` in its verdicts only.
    assert Stripped(first.snapshot) == Stripped(m.snapshot) by {
      if m.snapshot.rows != [] {
        StrippedSame(first.snapshot, m.snapshot);
      }
    }
    MergeIgnoresVerdicts(first.snapshot, m.snapshot, b, p, now);
    var n := Merge(m.snapshot, b, p, now);
    var n' := Merge(first.snapshot, b, p, now);
    StrippedSame(n.snapshot, n'.snapshot);
    if n.snapshot.rows != [] {
      RelabelIgnoresVerdicts(n.snapshot.rows, n'.snapshot.rows);
    }
  }
}
