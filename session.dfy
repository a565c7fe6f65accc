/** The session recorder of src/core/session.rs: an append-only log of
    timestamped events, written to only while recording is on. The wall
    clock is a parameter (`now`, milliseconds since the Unix epoch). */
module Session {
  import opened Types

  datatype EventType =
    | Input
    | Output
    | Resize(width: u32, height: u32)
    | Command(command: string)

  datatype SessionEvent = SessionEvent(timestamp: u64, eventType: EventType, data: seq<u8>)

  class SessionRecorder {
    var recording: bool
    var startTime: Option<u64>
    var events: seq<SessionEvent>
    var outputFile: Option<string>

    /** Events only ever enter the log while recording, and recording only
        starts with a start time, so a recording or non-empty log has one. */
    ghost predicate Valid()
      reads this
    {
      (recording || |events| > 0) ==> startTime.Some?
    }

    /** `SessionRecorder::new`: not recording, no start time, no events, no
        output file. */
    constructor ()
      ensures !recording && startTime == None && events == [] && outputFile == None
      ensures Valid()
    {
      recording := false;
      startTime := None;
      events := [];
      outputFile := None;
    }

    /** `start_recording`: recording on, the start time taken from the clock,
        the output file replaced and the log emptied. */
    method StartRecording(file: Option<string>, now: u64)
      modifies this
      ensures recording && startTime == Some(now) && outputFile == file && events == []
      ensures Valid()
    {
      recording := true;
      startTime := Some(now);
      outputFile := file;
      events := [];
    }

    /** `stop_recording`: recording off, the log kept. The log would then be
        written to the returned file, which is the current output file. */
    method StopRecording() returns (saveTo: Option<string>)
      modifies this
      ensures !recording && saveTo == outputFile
      ensures events == old(events) && startTime == old(startTime) && outputFile == old(outputFile)
      ensures old(Valid()) ==> Valid()
    {
      recording := false;
      saveTo := outputFile;
    }

    /** The shared behaviour of the four `record_*` methods: while recording,
        exactly `e` is appended; otherwise the log is unchanged. */
    method Record(e: SessionEvent)
      modifies this`events
      ensures events == if recording then old(events) + [e] else old(events)
      ensures old(Valid()) ==> Valid()
    {
      if !recording {
        return;
      }
      events := events + [e];
    }

    method RecordInput(data: seq<u8>, now: u64)
      modifies this`events
      ensures events == if recording then old(events) + [SessionEvent(now, Input, data)] else old(events)
      ensures old(Valid()) ==> Valid()
    {
      Record(SessionEvent(now, Input, data));
    }

    method RecordOutput(data: seq<u8>, now: u64)
      modifies this`events
      ensures events == if recording then old(events) + [SessionEvent(now, Output, data)] else old(events)
      ensures old(Valid()) ==> Valid()
    {
      Record(SessionEvent(now, Output, data));
    }

    method RecordResize(width: u32, height: u32, now: u64)
      modifies this`events
      ensures events == if recording then old(events) + [SessionEvent(now, Resize(width, height), [])] else old(events)
      ensures old(Valid()) ==> Valid()
    {
      Record(SessionEvent(now, Resize(width, height), []));
    }

    method RecordCommand(command: string, now: u64)
      modifies this`events
      ensures events == if recording then old(events) + [SessionEvent(now, Command(command), [])] else old(events)
      ensures old(Valid()) ==> Valid()
    {
      Record(SessionEvent(now, Command(command), []));
    }

    /** `start_time.unwrap_or(0)`: the timestamp `save_to_file` writes in its
        header and measures every event from. Under the invariant, a log
        with events always has a real start time, so the fallback 0 is never
        what a saved non-empty log is measured from. */
    function LogStart(): (t: u64)
      reads this
      ensures startTime.Some? ==> t == startTime.value
      ensures startTime.None? ==> t == 0
      ensures Valid() && |events| > 0 ==> startTime == Some(t)
    {
      if startTime.Some? then startTime.value else 0
    }

    function IsRecording(): bool
      reads this
    {
      recording
    }

    function GetEvents(): seq<SessionEvent>
      reads this
    {
      events
    }
  }

  /** A client's view: after starting, recording an input and an output and
      stopping, the log holds exactly those two events, in that order, it
      is measured from the time recording started, and a later input is not
      recorded. */
  method RecordTwoThenStop(rec: SessionRecorder, input: seq<u8>, output: seq<u8>, t0: u64, t1: u64, t2: u64)
    returns (log: seq<SessionEvent>)
    modifies rec
    ensures log == [SessionEvent(t1, Input, input), SessionEvent(t1, Output, output)]
    ensures rec.GetEvents() == log && !rec.IsRecording()
    ensures rec.LogStart() == t0
  {
    rec.StartRecording(None, t0);
    rec.RecordInput(input, t1);
    rec.RecordOutput(output, t1);
    var _ := rec.StopRecording();
    rec.RecordInput(input, t2);
    log := rec.GetEvents();
  }
}
