/** The recording component of the web client: it picks a recording format
    the browser supports, buffers the recorded chunks, shows the elapsed
    time, and on stop turns the chunks into one audio file for the voice
    endpoint. Browser media objects are replaced by the outcomes they
    produce, passed in as parameters. */
module AudioRecorder {
  import opened Wrappers
  import opened Strings
  import opened AgentService
  import opened VoiceRouter

  // ---------------------------------------------------------------------
  // The elapsed-time label

  /** `formatTime`: whole minutes, a colon, and the seconds padded to two
      digits. */
  function FormatTime(seconds: nat): string {
    NatToString(seconds / 60) + ":" + PadStart(NatToString(seconds % 60), 2, '0')
  }

  /** The label is minutes, a colon and exactly two digits of seconds below
      60, and reading the two numbers back gives 60 · minutes + seconds =
      the elapsed time. */
  lemma {:induction false} FormatTimeReadsBack(seconds: nat)
    ensures var r := FormatTime(seconds);
      && |r| >= 4 && r[|r| - 3] == ':'
      && AllDigits(r[0..|r| - 3]) && AllDigits(r[|r| - 2..|r|])
      && StringToNat(r[|r| - 2..|r|]) < 60
      && StringToNat(r[0..|r| - 3]) * 60 + StringToNat(r[|r| - 2..|r|]) == seconds
  {
    var m := NatToString(seconds / 60);
    var p := PadStart(NatToString(seconds % 60), 2, '0');
    StringToNatOfNatToString(seconds / 60);
    assert Pow10(2) == 100;
    ZeroPaddedRoundTrip(seconds % 60, 2);
    var r := FormatTime(seconds);
    assert r == m + ":" + p;
    assert r[0..|r| - 3] == m;
    assert r[|r| - 2..|r|] == p;
  }

  /** Different elapsed times get different labels. */
  lemma FormatTimeInjective(a: nat, b: nat)
    requires FormatTime(a) == FormatTime(b)
    ensures a == b
  {
    FormatTimeReadsBack(a);
    FormatTimeReadsBack(b);
  }

  // ---------------------------------------------------------------------
  // Recording formats and file extensions

  /** The formats tried, in order of preference. */
  const MimeTypes: seq<string> :=
    ["audio/webm", "audio/webm;codecs=opus", "audio/mp4", "audio/ogg;codecs=opus", "audio/wav"]

  /** The first preferred format the browser supports, or "" when it
      supports none. */
  function FirstSupported(types: seq<string>, isTypeSupported: string -> bool): string
    decreases |types|
  {
    if types == [] then ""
    else if isTypeSupported(types[0]) then types[0]
    else FirstSupported(types[1..], isTypeSupported)
  }

  /** The choice is "" exactly when no format is supported; otherwise it is
      a supported format of the list and every format before it is not
      supported. */
  lemma {:induction false} FirstSupportedChoice(types: seq<string>, isTypeSupported: string -> bool)
    requires forall i :: 0 <= i < |types| ==> types[i] != ""
    ensures var t := FirstSupported(types, isTypeSupported);
      && (t == "" <==> forall i :: 0 <= i < |types| ==> !isTypeSupported(types[i]))
      && (t != "" ==> exists i :: 0 <= i < |types| && types[i] == t && isTypeSupported(t)
                         && forall j :: 0 <= j < i ==> !isTypeSupported(types[j]))
    decreases |types|
  {
    if types != [] && !isTypeSupported(types[0]) {
      FirstSupportedChoice(types[1..], isTypeSupported);
      var t := FirstSupported(types[1..], isTypeSupported);
      if t != "" {
        var i :| 0 <= i < |types| - 1 && types[1..][i] == t && isTypeSupported(t)
                 && forall j :: 0 <= j < i ==> !isTypeSupported(types[1..][j]);
        assert types[i + 1] == t;
        forall j | 0 <= j < i + 1 ensures !isTypeSupported(types[j]) {
          if j > 0 { assert types[j] == types[1..][j - 1]; }
        }
      } else {
        forall i | 0 <= i < |types| ensures !isTypeSupported(types[i]) {
          if i > 0 { assert types[i] == types[1..][i - 1]; }
        }
      }
    }
  }

  /** `getSupportedMimeType`: tries the preferred formats in order and
      returns the first the browser supports, or "". */
  method GetSupportedMimeType(isTypeSupported: string -> bool) returns (t: string)
    ensures t == FirstSupported(MimeTypes, isTypeSupported)
    ensures t == "" || t in MimeTypes
  {
    var k := 0;
    while k < |MimeTypes|
      invariant 0 <= k <= |MimeTypes|
      invariant FirstSupported(MimeTypes[k..], isTypeSupported) == FirstSupported(MimeTypes, isTypeSupported)
    {
      if isTypeSupported(MimeTypes[k]) {
        return MimeTypes[k];
      }
      assert MimeTypes[k..][1..] == MimeTypes[k + 1..];
      k := k + 1;
    }
    return "";
  }

  /** The extension for a format, by ordered substring tests. */
  function ExtensionFor(mimeType: string): string {
    if Contains(mimeType, "mp4") then "m4a"
    else if Contains(mimeType, "ogg") then "ogg"
    else if Contains(mimeType, "wav") then "wav"
    else "webm"
  }

  /** Every preferred format, and the blob default, gets the extension of
      its container. */
  lemma ExtensionsOfPreferredFormats()
    ensures ExtensionFor("audio/webm") == "webm"
    ensures ExtensionFor("audio/webm;codecs=opus") == "webm"
    ensures ExtensionFor("audio/mp4") == "m4a"
    ensures ExtensionFor("audio/ogg;codecs=opus") == "ogg"
    ensures ExtensionFor("audio/wav") == "wav"
  {
    NotContains("audio/webm", "mp4", 2);
    NotContains("audio/webm", "ogg", 1);
    NotContains("audio/webm", "wav", 2);
    NotContains("audio/webm;codecs=opus", "mp4", 2);
    NotContains("audio/webm;codecs=opus", "ogg", 1);
    NotContains("audio/webm;codecs=opus", "wav", 2);
    assert OccursAt("audio/mp4", "mp4", 6);
    NotContains("audio/ogg;codecs=opus", "mp4", 2);
    assert OccursAt("audio/ogg;codecs=opus", "ogg", 6);
    NotContains("audio/wav", "mp4", 2);
    NotContains("audio/wav", "ogg", 1);
    assert OccursAt("audio/wav", "wav", 6);
  }

  /** The format the blob is labelled with: the chosen one, or
      "audio/webm" when none was chosen. */
  function BlobMimeType(chosen: string): (m: string)
    ensures m != ""
    ensures chosen != "" ==> m == chosen
  {
    if chosen == "" then "audio/webm" else chosen
  }

  // ---------------------------------------------------------------------
  // Chunks and the uploaded file

  datatype Chunk = Chunk(data: seq<bv8>)

  /** The recorded bytes, chunk after chunk. */
  function Concat(chunks: seq<Chunk>): (bytes: seq<bv8>)
    decreases |chunks|
  {
    if chunks == [] then [] else Concat(chunks[..|chunks| - 1]) + chunks[|chunks| - 1].data
  }

  lemma ConcatAppend(chunks: seq<Chunk>, c: Chunk)
    ensures Concat(chunks + [c]) == Concat(chunks) + c.data
  {
    assert (chunks + [c])[..|chunks|] == chunks;
  }

  predicate NoEmptyChunks(chunks: seq<Chunk>) {
    forall i :: 0 <= i < |chunks| ==> |chunks[i].data| > 0
  }

  /** The buffer after a `dataavailable` event: only a non-empty chunk is
      kept. */
  function Buffered(chunks: seq<Chunk>, c: Chunk): (r: seq<Chunk>)
    ensures NoEmptyChunks(chunks) ==> NoEmptyChunks(r)
    ensures Concat(r) == Concat(chunks) + c.data
  {
    ConcatAppend(chunks, c);
    if |c.data| > 0 then chunks + [c] else chunks
  }

  /** The file `sendToBackend` posts: named `recording.<extension>` after
      the blob's format, typed with that format, holding the recorded bytes. */
  function Upload(chosen: string, chunks: seq<Chunk>): AudioFile
  {
    var mimeType := BlobMimeType(chosen);
    AudioFile("recording." + ExtensionFor(mimeType), mimeType, Concat(chunks))
  }

  /** A recording made in any format the browser chose, or in none, is
      named with the extension of its container. */
  lemma UploadNames(isTypeSupported: string -> bool, chunks: seq<Chunk>)
    ensures var f := Upload(FirstSupported(MimeTypes, isTypeSupported), chunks);
      var extension := ExtensionFor(f.contentType);
      && extension in {"webm", "m4a", "ogg", "wav"}
      && (f.contentType == "audio/mp4" <==> extension == "m4a")
  {
    assert forall i :: 0 <= i < |MimeTypes| ==> MimeTypes[i] != "";
    FirstSupportedChoice(MimeTypes, isTypeSupported);
    ExtensionsOfPreferredFormats();
    var t := FirstSupported(MimeTypes, isTypeSupported);
    if t == "" {
      assert BlobMimeType(t) == "audio/webm";
    } else {
      var i :| 0 <= i < |MimeTypes| && MimeTypes[i] == t;
      assert BlobMimeType(t) == t;
      assert i == 0 || i == 1 || i == 2 || i == 3 || i == 4;
    }
  }

  /** When the browser supports none of the listed formats, the recording
      is sent as `recording.webm`, typed "audio/webm". */
  lemma NoSupportedFormatUpload(isTypeSupported: string -> bool, chunks: seq<Chunk>)
    requires forall i :: 0 <= i < |MimeTypes| ==> !isTypeSupported(MimeTypes[i])
    ensures Upload(FirstSupported(MimeTypes, isTypeSupported), chunks)
              == AudioFile("recording.webm", "audio/webm", Concat(chunks))
  {
    FirstSupportedChoice(MimeTypes, isTypeSupported);
    ExtensionsOfPreferredFormats();
  }

  // ---------------------------------------------------------------------
  // The component's recording state

  const PermissionDenied := "Microphone permission denied. Please enable it in your browser settings."

  class Recorder {
    var isRecording: bool
    var recordingTime: nat
    /** `null` until permission was asked, then whether it was granted. */
    var permissionGranted: Option<bool>
    var error: Option<string>
    var agentResponse: Option<AgentResponse>
    /** A media recorder exists, and whether it is capturing. */
    var hasRecorder: bool
    var recorderActive: bool
    var timerActive: bool
    var streamActive: bool
    var chunks: seq<Chunk>
    var mimeType: string
    /** Every chunk the recorder reported since recording started. */
    ghost var reported: seq<Chunk>
    /** Every file sent to the voice endpoint. */
    var uploads: seq<AudioFile>

    /** While recording, a recorder exists and the timer runs; the buffer
        holds no empty chunk and every reported byte. */
    ghost predicate Valid()
      reads this
    {
      && (isRecording ==> hasRecorder && timerActive)
      && NoEmptyChunks(chunks)
      && Concat(chunks) == Concat(reported)
    }

    constructor ()
      ensures Valid()
      ensures !isRecording && recordingTime == 0 && permissionGranted == None
      ensures error == None && agentResponse == None
      ensures !hasRecorder && !recorderActive && !timerActive && !streamActive
      ensures chunks == [] && mimeType == "" && uploads == []
    {
      isRecording, recordingTime, permissionGranted := false, 0, None;
      error, agentResponse := None, None;
      hasRecorder, recorderActive, timerActive, streamActive := false, false, false, false;
      chunks, mimeType, reported, uploads := [], "", [], [];
    }

    /** The capture state is as it was: no recorder was started, the timer
        and the buffer are untouched. */
    twostate predicate CaptureKept()
      reads this
    {
      && isRecording == old(isRecording) && recordingTime == old(recordingTime)
      && timerActive == old(timerActive) && hasRecorder == old(hasRecorder)
      && recorderActive == old(recorderActive) && streamActive == old(streamActive)
      && chunks == old(chunks) && mimeType == old(mimeType) && reported == old(reported)
    }

    /** What `startRecording` leaves behind: the error and the previous
        answer are cleared, a first call records the permission answer, and
        then it either stops (refused permission, failed stream) with the
        capture state kept, or starts capturing in the browser's first
        supported format. */
    twostate predicate Started(permissionRequest: bool, stream: Result<(), string>,
                               isTypeSupported: string -> bool)
      reads this
    {
      var allowed := old(permissionGranted).Some? || permissionRequest;
      && agentResponse == None
      && permissionGranted ==
           (if old(permissionGranted).None? then Some(permissionRequest) else old(permissionGranted))
      && (!allowed ==> error == Some(PermissionDenied) && CaptureKept())
      && (allowed && stream.Failure? ==>
            error == Some("Failed to start recording: " + stream.error) && CaptureKept())
      && (allowed && stream.Success? ==>
            && error == None
            && isRecording && recordingTime == 0 && timerActive
            && hasRecorder && recorderActive && streamActive
            && chunks == [] && mimeType == FirstSupported(MimeTypes, isTypeSupported))
    }

    /** `startRecording`. `permissionRequest` is whether the permission
        prompt is accepted (asked only while permission is unknown),
        `stream` the outcome of opening the microphone, `isTypeSupported`
        the browser's format support. */
    method StartRecording(permissionRequest: bool, stream: Result<(), string>,
                          isTypeSupported: string -> bool)
      requires Valid()
      modifies this`error, this`agentResponse, this`permissionGranted
      modifies this`streamActive, this`mimeType, this`hasRecorder, this`chunks, this`reported
      modifies this`recorderActive, this`isRecording, this`recordingTime, this`timerActive
      ensures Valid()
      ensures Started(permissionRequest, stream, isTypeSupported)
    {
      error := None;
      agentResponse := None;
      if permissionGranted.None? {
        permissionGranted := Some(permissionRequest);
        if !permissionRequest {
          error := Some(PermissionDenied);
          return;
        }
      }
      if stream.Failure? {
        error := Some("Failed to start recording: " + stream.error);
        return;
      }
      BeginCapture(isTypeSupported);
    }

    /** The part of `startRecording` after the microphone is open: choose
        the format, start a fresh recorder with an empty buffer, and start
        the timer from zero. */
    method BeginCapture(isTypeSupported: string -> bool)
      modifies this`streamActive, this`mimeType, this`hasRecorder, this`chunks, this`reported
      modifies this`recorderActive, this`isRecording, this`recordingTime, this`timerActive
      ensures Valid()
      ensures isRecording && recordingTime == 0 && timerActive
      ensures hasRecorder && recorderActive && streamActive
      ensures chunks == [] && mimeType == FirstSupported(MimeTypes, isTypeSupported)
    {
      var chosen := GetSupportedMimeType(isTypeSupported);
      streamActive, mimeType, hasRecorder := true, chosen, true;
      chunks, reported := [], [];
      recorderActive, isRecording, recordingTime, timerActive := true, true, 0, true;
    }

    /** `ondataavailable`: a chunk with data joins the buffer; nothing but
        the buffer changes. */
    method OnDataAvailable(c: Chunk)
      requires Valid()
      modifies this`chunks, this`reported
      ensures Valid()
      ensures chunks == Buffered(old(chunks), c) && reported == old(reported) + [c]
    {
      ConcatAppend(reported, c);
      if |c.data| > 0 {
        chunks := chunks + [c];
      }
      reported := reported + [c];
    }

    /** The one-second interval: counts while the timer runs; nothing but
        the elapsed time changes. */
    method TimerTick()
      requires Valid()
      modifies this`recordingTime
      ensures Valid()
      ensures recordingTime == if old(timerActive) then old(recordingTime) + 1 else old(recordingTime)
    {
      if timerActive {
        recordingTime := recordingTime + 1;
      }
    }

    /** `stopRecording`: does nothing unless a recorder exists and recording
        is on; otherwise stops the recorder and clears the timer. Only those
        three pieces of state can change. */
    method StopRecording()
      requires Valid()
      modifies this`isRecording, this`recorderActive, this`timerActive
      ensures Valid()
      ensures old(hasRecorder && isRecording) ==> !isRecording && !recorderActive && !timerActive
      ensures !old(hasRecorder && isRecording) ==>
        isRecording == old(isRecording) && recorderActive == old(recorderActive) && timerActive == old(timerActive)
    {
      if hasRecorder && isRecording {
        recorderActive := false;
        isRecording := false;
        if timerActive {
          timerActive := false;
        }
      }
    }

    /** `onstop` with `sendToBackend`: releases the microphone, posts the
        recorded file, and shows the classification or the failure.
        `reply` is the voice endpoint's answer. Nothing else changes. */
    method OnStop(reply: Result<AgentResponse, string>) returns (file: AudioFile)
      requires Valid()
      modifies this`streamActive, this`error, this`agentResponse, this`uploads
      ensures Valid()
      ensures file == Upload(old(mimeType), old(chunks))
      ensures file.content == Concat(old(reported))
      ensures uploads == old(uploads) + [file] && !streamActive
      ensures reply.Success? ==> agentResponse == Some(reply.value) && error == None
      ensures reply.Failure? ==>
        agentResponse == old(agentResponse) && error == Some("Processing failed: " + reply.error)
    {
      var blobType := if mimeType == "" then "audio/webm" else mimeType;
      streamActive := false;
      error := None;
      var extension := if Contains(blobType, "mp4") then "m4a"
                       else if Contains(blobType, "ogg") then "ogg"
                       else if Contains(blobType, "wav") then "wav"
                       else "webm";
      file := AudioFile("recording." + extension, blobType, Concat(chunks));
      uploads := uploads + [file];
      match reply
      case Success(response) =>
        agentResponse := Some(response);
      case Failure(detail) =>
        error := Some("Processing failed: " + detail);
    }

    /** `handleButtonClick`: stops while recording, leaving everything but
        the recorder, the flag and the timer as it was; starts otherwise. */
    method HandleButtonClick(permissionRequest: bool, stream: Result<(), string>,
                             isTypeSupported: string -> bool)
      requires Valid()
      modifies this`error, this`agentResponse, this`permissionGranted
      modifies this`streamActive, this`mimeType, this`hasRecorder, this`chunks, this`reported
      modifies this`recorderActive, this`isRecording, this`recordingTime, this`timerActive
      ensures Valid()
      ensures old(isRecording) ==>
        && !isRecording && !recorderActive && !timerActive
        && error == old(error) && agentResponse == old(agentResponse)
        && permissionGranted == old(permissionGranted)
        && recordingTime == old(recordingTime) && hasRecorder == old(hasRecorder)
        && streamActive == old(streamActive) && chunks == old(chunks)
        && mimeType == old(mimeType) && reported == old(reported)
      ensures !old(isRecording) ==> Started(permissionRequest, stream, isTypeSupported)
    {
      if isRecording {
        StopRecording();
      } else {
        StartRecording(permissionRequest, stream, isTypeSupported);
      }
    }
  }
}
