/** The voice reply path: a model reply holding the `.el` marker is cut down
    to the text after the first marker and handed to speech synthesis; the
    audio is sent as a voice note, or the text itself when synthesis fails. */
module Voice {
  import opened Wrappers
  import opened Text

  const Marker: string := ".el"

  /** The text synthesis receives: everything after the first marker,
      without surrounding whitespace. */
  function VoicePayload(response: string): (payload: string)
    requires Contains(response, Marker)
  {
    Strip(AfterMarker(response))
  }

  /** `bot_response[bot_response.find(".el") + len(".el"):]`: the reply
      after its first marker. */
  function AfterMarker(response: string): string
    requires Contains(response, Marker)
  {
    response[Find(response, Marker) + |Marker|..]
  }

  /** What speech synthesis does with a text: it yields an audio file path
      (the empty path standing for a falsy result), or it raises. */
  datatype Speech = Audio(path: string) | SpeechFailed

  /** What reaches the chat. */
  datatype Delivery = VoiceNote(path: string) | TextNote(text: string)

  /** The value `handle_voice_message` returns and what it sent. */
  datatype VoiceResult = VoiceResult(handled: bool, sent: Option<Delivery>)

  function HandleVoice(response: string, synth: string -> Speech): VoiceResult {
    if !Contains(response, Marker) then VoiceResult(false, None)
    else
      var payload := VoicePayload(response);
      match synth(payload)
      case Audio(path) =>
        if path != "" then VoiceResult(true, Some(VoiceNote(path))) else VoiceResult(false, None)
      case SpeechFailed => VoiceResult(true, Some(TextNote(payload)))
  }

  /** `thread_id` is passed on only when it is truthy. */
  function ThreadArg(thread: Option<nat>): (t: Option<nat>)
    ensures t.Some? <==> (thread.Some? && thread.value != 0)
  {
    if thread.Some? && thread.value != 0 then thread else None
  }

  /** The handler reports success exactly when it sent something: a voice
      note when synthesis produced a file, the payload as text when synthesis
      failed; without the marker or with an empty audio path it sends nothing. */
  lemma HandleVoiceCases(response: string, synth: string -> Speech)
    ensures var v := HandleVoice(response, synth);
      && (v.handled <==> v.sent.Some?)
      && (!Contains(response, Marker) ==> v == VoiceResult(false, None))
      && (Contains(response, Marker) ==>
            var s := synth(VoicePayload(response));
            && (v.sent == Some(TextNote(VoicePayload(response))) <==> s.SpeechFailed?)
            && (v.sent.Some? && v.sent.value.VoiceNote? <==> s.Audio? && s.path != "")
            && (v.sent.Some? && v.sent.value.VoiceNote? ==> v.sent.value.path == s.path))
  {
  }

  /** A reply that starts with the marker is spoken without it. */
  lemma MarkedReply(body: string)
    ensures Contains(Marker + body, Marker)
    ensures VoicePayload(Marker + body) == Strip(body)
  {
    assert (Marker + body)[..|Marker|] == Marker;
    assert (Marker + body)[|Marker|..] == body;
  }

  /** The marker, one space and a text with no surrounding whitespace: the
      text is spoken as it is. */
  lemma MarkedSpacedReply(text: string)
    requires text != [] && !IsSpace(text[0]) && !IsSpace(text[|text| - 1])
    ensures Contains(Marker + [' '] + text, Marker)
    ensures VoicePayload(Marker + [' '] + text) == text
  {
    var body := [' '] + text;
    assert Marker + [' '] + text == Marker + body;
    MarkedReply(body);
    assert body[1..] == text;
    assert LeadingSpaces(body) == 1;
    StripSpaceFree(text);
  }
}
