/** The voice endpoints: `/transcribe` returns the transcription, and
    `/process` transcribes and then classifies the transcript. Neither stores
    anything nor asks for an embedding. The speech-to-text provider is the
    parameter `stt`; every call the pipeline makes to a provider is recorded
    in order, so that what happens, and in which order, can be stated. */
module VoiceRouter {
  import opened Wrappers
  import opened DateTimes
  import opened AgentService

  /** An uploaded file: its name, content type and bytes. */
  datatype AudioFile = AudioFile(filename: string, contentType: string, content: seq<bv8>)

  /** What the voice service asks the speech-to-text provider for. */
  datatype SttRequest = SttRequest(model: string, file: AudioFile, language: string)

  /** The provider's reply; `language` is `None` when the reply has no
      language attribute. */
  datatype SttReply = SttReply(text: string, language: Option<string>)

  /** The transcription call: the reply, or the message of the exception it raises. */
  type SpeechToText = SttRequest -> Result<SttReply, string>

  datatype TranscriptionResponse = TranscriptionResponse(text: string, language: string)

  /** FastAPI's `HTTPException(status_code, detail)`. */
  datatype HttpException = HttpException(statusCode: nat, detail: string)

  /** A call the pipeline makes to an outside provider. */
  datatype ServiceCall =
    | TranscriptionCall(sttRequest: SttRequest)
    | ExtractionCall(chatRequest: ChatRequest)

  /** An endpoint's answer together with the provider calls made for it. */
  datatype Handled = Handled(response: Result<AgentResponse, HttpException>, calls: seq<ServiceCall>)

  function TranscriptionRequest(file: AudioFile): SttRequest {
    SttRequest("whisper-1", file, "en")
  }

  /** The voice service's `transcribe_audio`: the provider's text, and its
      language or `"unknown"` when the reply has none; a provider exception
      is re-raised unchanged. */
  function Transcribe(file: AudioFile, stt: SpeechToText): Result<TranscriptionResponse, string> {
    match stt(TranscriptionRequest(file))
    case Success(reply) => Success(TranscriptionResponse(reply.text, reply.language.GetOr("unknown")))
    case Failure(e) => Failure(e)
  }

  /** `POST /api/voice/transcribe`. */
  function TranscribeAudio(file: AudioFile, stt: SpeechToText): Result<TranscriptionResponse, HttpException> {
    match Transcribe(file, stt)
    case Success(t) => Success(t)
    case Failure(e) => Failure(HttpException(500, "Transcription failed: " + e))
  }

  /** `POST /api/voice/process`: transcribe, then classify the transcript
      with no context variables, then return the classifier's record. Any
      exception becomes an HTTP 500 with the cause in its detail. */
  function ProcessVoiceCommand(file: AudioFile, stt: SpeechToText, now: DateTime,
                               extract: Extractor): Handled
  {
    var transcribeCall := TranscriptionCall(TranscriptionRequest(file));
    match Transcribe(file, stt)
    case Failure(e) =>
      Handled(Failure(HttpException(500, "Voice processing failed: " + e)), [transcribeCall])
    case Success(transcription) =>
      var agentResponse := ClassifyInput(now, transcription.text, None, extract);
      Handled(Success(agentResponse),
              [transcribeCall, ExtractionCall(ClassifyRequest(now, transcription.text, None))])
  }

  /** The transcription keeps the provider's text and language; a reply
      without a language reports `"unknown"`; the endpoint either returns
      that unchanged or fails with HTTP 500 whose detail is
      `"Transcription failed: "` followed by the cause. */
  lemma TranscribeAudioOutcome(file: AudioFile, stt: SpeechToText)
    ensures var reply := stt(SttRequest("whisper-1", file, "en"));
      && (reply.Success? ==>
            TranscribeAudio(file, stt) == Success(TranscriptionResponse(
              reply.value.text,
              if reply.value.language.None? then "unknown" else reply.value.language.value)))
      && (reply.Failure? ==>
            TranscribeAudio(file, stt) == Failure(HttpException(500, "Transcription failed: " + reply.error)))
  {
  }

  /** The pipeline calls the transcription provider first, and the
      extraction provider second and only once the transcription succeeded,
      with exactly the transcript and no context variables; it calls no other
      provider. */
  lemma ProcessCallOrder(file: AudioFile, stt: SpeechToText, now: DateTime, extract: Extractor)
    ensures var h := ProcessVoiceCommand(file, stt, now, extract);
      && 1 <= |h.calls| <= 2
      && h.calls[0] == TranscriptionCall(SttRequest("whisper-1", file, "en"))
      && (|h.calls| == 2 <==> Transcribe(file, stt).Success?)
      && (|h.calls| == 2 ==>
            h.calls[1] == ExtractionCall(ClassifyRequest(now, Transcribe(file, stt).value.text, None)))
      && (forall i :: 0 < i < |h.calls| ==> h.calls[i].ExtractionCall?)
  {
  }

  /** Because the classifier never fails, the pipeline fails exactly when
      the transcription fails, with HTTP 500 and detail
      `"Voice processing failed: "` followed by the cause; otherwise it
      returns the classifier's record for the transcript unchanged. */
  lemma ProcessFailsOnlyOnTranscription(file: AudioFile, stt: SpeechToText, now: DateTime,
                                        extract: Extractor)
    ensures var h := ProcessVoiceCommand(file, stt, now, extract);
      && (h.response.Failure? <==> stt(SttRequest("whisper-1", file, "en")).Failure?)
      && (h.response.Failure? ==>
            h.response.error == HttpException(500, "Voice processing failed: "
                                                   + stt(SttRequest("whisper-1", file, "en")).error))
      && (h.response.Success? ==>
            h.response.value == ClassifyInput(now, stt(SttRequest("whisper-1", file, "en")).value.text,
                                              None, extract))
  {
  }

  /** The two endpoints agree: `/process` succeeds exactly when
      `/transcribe` does, then answers the classification of the same
      transcript, and otherwise reports the same cause under its own
      prefix. */
  lemma ProcessAgreesWithTranscribe(file: AudioFile, stt: SpeechToText, now: DateTime,
                                    extract: Extractor)
    ensures var h, t := ProcessVoiceCommand(file, stt, now, extract), TranscribeAudio(file, stt);
      && (h.response.Success? <==> t.Success?)
      && (t.Success? ==> h.response.value == ClassifyInput(now, t.value.text, None, extract))
      && (t.Failure? ==> exists cause :: t.error.detail == "Transcription failed: " + cause
                                      && h.response.error.detail == "Voice processing failed: " + cause)
  {
    var t := TranscribeAudio(file, stt);
    if t.Failure? {
      var cause := Transcribe(file, stt).error;
      assert t.error.detail == "Transcription failed: " + cause;
    }
  }

  /** When the extraction provider fails on the transcript, `/process`
      still succeeds, answering the fallback record for the transcript. */
  lemma ProcessWithFailingExtraction(file: AudioFile, stt: SpeechToText, now: DateTime,
                                     extract: Extractor)
    requires Transcribe(file, stt).Success?
    requires extract(ClassifyRequest(now, Transcribe(file, stt).value.text, None)).Failure?
    ensures ProcessVoiceCommand(file, stt, now, extract).response
         == Success(Fallback(Transcribe(file, stt).value.text))
  {
  }
}
