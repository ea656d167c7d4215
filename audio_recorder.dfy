// The voice recorder: idle, recording, recorded. The browser's recorder,
// microphone prompt and one-second interval are events delivered to the
// methods below.

module AudioRecorder {
  import opened Wrappers
  import opened Text

  /** One `dataavailable` payload: its size and an identity for the data. */
  datatype Chunk = Chunk(size: nat, data: nat)

  /** The recording built from the collected chunks. */
  datatype Blob = Blob(parts: seq<Chunk>, mimeType: string)

  const RecordingMime := "audio/webm"

  // ---------------------------------------------------------------------
  // The clock label

  /** `formatTime`: whole minutes, a colon, and the seconds padded to two
      digits. The minutes field is the minutes written without leading
      zeros, the seconds field reads back as the seconds within the minute,
      and reading the label back gives the seconds that were formatted. */
  function FormatTime(seconds: nat): (t: string)
    ensures |t| >= 4 && t[|t| - 3] == ':'
    ensures t[..|t| - 3] == NatToString(seconds / 60)
    ensures t[0] == '0' <==> |t| == 4 && seconds < 60
    ensures AllDigits(t[..|t| - 3]) && ParseDigits(t[..|t| - 3]) == seconds / 60
    ensures AllDigits(t[|t| - 2..]) && ParseDigits(t[|t| - 2..]) == seconds % 60
    ensures ParseTime(t) == Some(seconds)
  {
    var mins := NatToString(seconds / 60);
    var padded := PadStart(NatToString(seconds % 60), 2, '0');
    NatToStringRoundTrip(seconds / 60);
    TwoDigitSeconds(seconds % 60);
    ParseJoined(mins, padded);
    MinutesAndSeconds(seconds);
    NatToStringLeadingZero(seconds / 60);
    mins + ":" + padded
  }

  /** Reads an `m:ss` label back into seconds. */
  function ParseTime(clock: string): Option<nat> {
    if |clock| >= 4 && clock[|clock| - 3] == ':'
       && AllDigits(clock[..|clock| - 3]) && AllDigits(clock[|clock| - 2..])
    then Some(ParseDigits(clock[..|clock| - 3]) * 60 + ParseDigits(clock[|clock| - 2..]))
    else None
  }

  /** A label put together from a run of digits, a colon and two digits
      reads back as its two fields. */
  lemma ParseJoined(mins: string, padded: string)
    requires 1 <= |mins| && AllDigits(mins)
    requires |padded| == 2 && AllDigits(padded)
    ensures var t := mins + ":" + padded;
      |t| >= 4 && t[|t| - 3] == ':' && t[..|t| - 3] == mins && t[|t| - 2..] == padded
      && ParseTime(t) == Some(ParseDigits(mins) * 60 + ParseDigits(padded))
  {
    var t := mins + ":" + padded;
    assert t[..|t| - 3] == mins;
    assert t[|t| - 2..] == padded;
  }

  lemma MinutesAndSeconds(seconds: nat)
    ensures (seconds / 60) * 60 + seconds % 60 == seconds
  {
  }

  /** The seconds field is two digits that read back as the seconds. */
  lemma TwoDigitSeconds(v: nat)
    requires v < 60
    ensures var p := PadStart(NatToString(v), 2, '0');
      |p| == 2 && AllDigits(p) && ParseDigits(p) == v
  {
    var p := PadStart(NatToString(v), 2, '0');
    if v >= 10 {
      assert NatToString(v / 10) == [DigitChar(v / 10)];
      assert NatToString(v) == [DigitChar(v / 10), DigitChar(v % 10)];
    } else {
      assert NatToString(v) == [DigitChar(v)];
      assert p == [DigitChar(0), DigitChar(v)];
    }
    assert p == [DigitChar(v / 10), DigitChar(v % 10)];
    TwoDigitsRead(v / 10, v % 10);
  }

  /** Two digits read as tens and units. */
  lemma TwoDigitsRead(a: nat, b: nat)
    requires a < 10 && b < 10
    ensures ParseDigits([DigitChar(a), DigitChar(b)]) == a * 10 + b
  {
    assert [DigitChar(a)][..0] == [];
    assert ParseDigits([DigitChar(a)]) == a;
    assert [DigitChar(a), DigitChar(b)][..1] == [DigitChar(a)];
  }

  // ---------------------------------------------------------------------
  // The buttons

  datatype Controls = Controls(start: bool, stop: bool, uploadAndRetake: bool)

  /** Start shows when idle, Stop while recording, Upload and Retake with a
      finished recording; exactly one group is on screen. */
  function VisibleControls(isRecording: bool, hasBlob: bool): (c: Controls)
    ensures c.start <==> !isRecording && !hasBlob
    ensures c.stop <==> isRecording
    ensures c.uploadAndRetake <==> hasBlob && !isRecording
    ensures c.start || c.stop || c.uploadAndRetake
    ensures !(c.start && c.stop) && !(c.start && c.uploadAndRetake) && !(c.stop && c.uploadAndRetake)
  {
    Controls(!isRecording && !hasBlob, isRecording, hasBlob && !isRecording)
  }

  // ---------------------------------------------------------------------
  // The component state

  class Recorder {
    var isRecording: bool
    var audioBlob: Option<Blob>
    var recordingTime: nat
    /** `chunksRef.current`. */
    var chunks: seq<Chunk>
    /** `mediaRecorderRef.current` is set. */
    var hasMediaRecorder: bool
    /** The one-second interval is running. */
    var timerRunning: bool
    /** The blobs handed to `onAudioRecorded`, oldest first. */
    var delivered: seq<Blob>

    /** The interval runs exactly while recording, and recording needs a
        recorder. */
    ghost predicate Valid()
      reads this
    {
      (timerRunning <==> isRecording) && (isRecording ==> hasMediaRecorder)
    }

    constructor ()
      ensures Valid()
      ensures !isRecording && audioBlob == None && recordingTime == 0
      ensures chunks == [] && !hasMediaRecorder && delivered == []
    {
      isRecording := false;
      audioBlob := None;
      recordingTime := 0;
      chunks := [];
      hasMediaRecorder := false;
      timerRunning := false;
      delivered := [];
    }

    function Buttons(): Controls
      reads this
    {
      VisibleControls(isRecording, audioBlob.Some?)
    }

    /** `startRecording`. When the microphone is refused nothing changes;
        otherwise the chunk list is emptied, recording starts and the clock
        restarts from 0. */
    method StartRecording(microphoneGranted: bool)
      requires Valid()
      modifies this
      ensures Valid()
      ensures !microphoneGranted ==> unchanged(this)
      ensures microphoneGranted ==> chunks == [] && isRecording && recordingTime == 0
      ensures microphoneGranted ==> hasMediaRecorder && timerRunning
      ensures audioBlob == old(audioBlob) && delivered == old(delivered)
    {
      if microphoneGranted {
        hasMediaRecorder := true;
        chunks := [];
        isRecording := true;
        recordingTime := 0;
        timerRunning := true;
      }
    }

    /** `ondataavailable`: only chunks of positive size are kept, in order. */
    method OnDataAvailable(chunk: Chunk)
      requires Valid()
      modifies this`chunks
      ensures Valid()
      ensures chunks == if chunk.size > 0 then old(chunks) + [chunk] else old(chunks)
    {
      if chunk.size > 0 {
        chunks := chunks + [chunk];
      }
    }

    /** One tick of the interval: the clock advances by one second. */
    method Tick()
      requires Valid()
      modifies this`recordingTime
      ensures Valid()
      ensures recordingTime == if timerRunning then old(recordingTime) + 1 else old(recordingTime)
    {
      if timerRunning {
        recordingTime := recordingTime + 1;
      }
    }

    /** `stopRecording`: only with a recorder and while recording. */
    method StopRecording()
      requires Valid()
      modifies this`isRecording, this`timerRunning
      ensures Valid()
      ensures old(hasMediaRecorder && isRecording) ==> !isRecording && !timerRunning
      ensures !old(hasMediaRecorder && isRecording) ==> isRecording == old(isRecording)
                                                         && timerRunning == old(timerRunning)
    {
      if hasMediaRecorder && isRecording {
        isRecording := false;
        timerRunning := false;
      }
    }

    /** The recorder's `onstop` event: the blob is built from the chunks. */
    method OnStop()
      requires Valid()
      modifies this`audioBlob
      ensures Valid()
      ensures audioBlob == Some(Blob(chunks, RecordingMime))
    {
      audioBlob := Some(Blob(chunks, RecordingMime));
    }

    /** `handleUpload`: with a blob, deliver it once, then clear it and the
        clock; without one, nothing happens. */
    method HandleUpload()
      requires Valid()
      modifies this`delivered, this`audioBlob, this`recordingTime
      ensures Valid()
      ensures audioBlob == None
      ensures old(audioBlob).None? ==> delivered == old(delivered) && recordingTime == old(recordingTime)
      ensures old(audioBlob).Some? ==> delivered == old(delivered) + [old(audioBlob).value] && recordingTime == 0
    {
      if audioBlob.Some? {
        delivered := delivered + [audioBlob.value];
        audioBlob := None;
        recordingTime := 0;
      }
    }

    /** The retake button drops the blob and keeps the clock. */
    method Retake()
      requires Valid()
      modifies this`audioBlob
      ensures Valid()
      ensures audioBlob == None
    {
      audioBlob := None;
    }
  }
}
