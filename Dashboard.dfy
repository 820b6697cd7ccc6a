/** The dashboard's session state and its merge step as the program runs it:
    the inbound queue is drained, each message updates the table, the logs
    or the links in place, and the verdict column is recomputed at the end. */
module Dashboard {
  import opened Telemetry
  import opened Fusion

  class SessionState {
    /** Messages received from the bus and not yet merged, oldest first. */
    var queue: seq<Event>
    var rows: seq<Row>
    var faceLog: seq<LogEntry>
    var voiceLog: seq<LogEntry>
    var photoUrl: string
    var audioUrl: Option<string>

    /** The merged state, without the queue. */
    function State(): Snapshot
      reads this
    {
      Snapshot(rows, faceLog, voiceLog, photoUrl, audioUrl)
    }

    /** Outside a merge step every row carries the verdict of its own fields. */
    ghost predicate Valid()
      reads this
    {
      Labelled(rows)
    }

    constructor ()
      ensures Valid() && queue == [] && State() == Initial()
    {
      queue := [];
      rows := [];
      faceLog := [];
      voiceLog := [];
      photoUrl := PhotoPlaceholder;
      audioUrl := None;
    }

    /** What the bus callback does with a decoded message: append it. */
    method Enqueue(e: Event)
      modifies this`queue
      ensures queue == old(queue) + [e]
    {
      queue := queue + [e];
    }

    /** Drains the queue and merges every message in arrival order, then
        recomputes the verdict column; reports whether anything changed. */
    method ProcessQueue(p: Parsers, now: nat) returns (changed: bool)
      requires Valid()
      modifies this
      ensures Valid() && queue == []
      ensures Step(State(), changed) == Process(old(State()), old(queue), p, now)
    {
      if queue == [] {
        return false;
      }
      var messages := queue;
      queue := [];
      changed := false;
      for i := 0 to |messages|
        invariant queue == []
        invariant Step(State(), changed) == Merge(old(State()), messages[..i], p, now)
      {
        var msg := messages[i];
        assert messages[..i + 1][..i] == messages[..i];
        if msg.topic == StatusTopic {
          rows := rows + [OpenedRow(msg)];
          changed := true;
        } else if rows != [] {
          var last := |rows| - 1;
          if msg.topic == DistanceTopic {
            match p.toFloat(msg.payload)
            case Some(d) =>
              rows := rows[last := rows[last].(distance := d)];
              changed := true;
            case None =>
          } else if msg.topic == PirTopic {
            match p.toInt(msg.payload)
            case Some(n) =>
              rows := rows[last := rows[last].(pir := Some(n))];
              changed := true;
            case None =>
          } else if msg.topic == FaceTopic {
            rows := rows[last := rows[last].(face := msg.payload)];
            faceLog := faceLog + [LiveResult(msg)];
            changed := true;
          } else if msg.topic == VoiceTopic {
            rows := rows[last := rows[last].(voice := msg.payload)];
            voiceLog := voiceLog + [LiveResult(msg)];
            changed := true;
          } else if msg.topic == PhotoTopic {
            photoUrl := CacheBusted(msg.payload, now);
            changed := true;
          } else if msg.topic == AudioTopic {
            audioUrl := Some(CacheBusted(msg.payload, now));
            changed := true;
          }
        }
      }
      assert messages[..|messages|] == messages;
      if rows != [] {
        rows := Relabel(rows);
      }
    }
  }
}
