/**
 The driver's raw-event hook: decode one report and report the key to the
 input device as a press followed by a release.
 */
module RawEventHandler {
  import opened Keyboard
  import Decoder

  /** The input device the driver reports keys to; each `input_report_key`
      call appends one event to its log. */
  class EventSink {
    var log: seq<KeyEvent>

    constructor ()
      ensures log == []
    {
      log := [];
    }

    /** One `input_report_key` call. */
    method ReportKey(code: KeyCode, value: int)
      modifies this
      ensures log == old(log) + [KeyEvent(code, value)]
    {
      log := log + [KeyEvent(code, value)];
    }
  }

  /** Handles one raw report: appends exactly a press and then a release of
      the decoded key, leaves the report buffer untouched and returns 0 for
      every report. */
  method RawEvent(sink: EventSink, data: array<byte>) returns (ret: int)
    requires data.Length == ReportLength
    modifies sink
    ensures ret == 0
    ensures sink.log == old(sink.log) + PressRelease(Decoder.Classify(data[..]))
  {
    var key := Decoder.Classify(data[..]);
    sink.ReportKey(key, KeyOn);
    sink.ReportKey(key, KeyOff);
    ret := 0;
  }
}
