/** Per-message text-to-speech playback flags (`playTextToSpeech` and the
    audio element's `onended` in chat-home.tsx). The speech request, the
    blob/object-URL handling and the audio element itself are outside the
    model: a toggle reports whether it issues a request, the request's
    settlement is a separate event carrying its outcome, and the end of
    playback is a third event. */
module Playback {
  import opened ChatState

  /** `isPlaying[id]` is truthy (a missing entry reads as `undefined`). */
  predicate Playing(s: ChatState, id: string)
  {
    id in s.isPlaying && s.isPlaying[id]
  }

  /** How the speech request of a toggle settled: audio was produced and
      started, or the request or the response failed and the error was caught. */
  datatype Synthesis = Synthesized | SynthesisFailed

  /** The events that move the playback flags. */
  datatype PlaybackEvent =
    | Toggle(id: string)
    | SynthesisSettled(id: string, outcome: Synthesis)
    | AudioEnded(id: string)
  {
    function Id(): string
    {
      match this
      case Toggle(i) => i
      case SynthesisSettled(i, _) => i
      case AudioEnded(i) => i
    }
  }

  /** The state after a toggle, and whether it issued a speech request. */
  datatype ToggleStep = ToggleStep(state: ChatState, requestsSpeech: bool)

  /** The synchronous part of `playTextToSpeech`. When the message is marked
      playing, the flag is cleared only if an audio element exists; without
      one the stop is ignored. When it is not marked playing, it is marked
      at once and a speech request goes out. */
  function TogglePlayback(s: ChatState, id: string): (r: ToggleStep)
    ensures r.requestsSpeech <==> !Playing(s, id)
    ensures !Playing(s, id) ==> r.state.isPlaying == s.isPlaying[id := true]
    ensures Playing(s, id) && id in s.audioPresent ==> r.state.isPlaying == s.isPlaying[id := false]
    ensures Playing(s, id) && id !in s.audioPresent ==> r.state == s
    ensures r.state.(isPlaying := s.isPlaying) == s
  {
    if Playing(s, id) then
      if id in s.audioPresent then ToggleStep(s.(isPlaying := s.isPlaying[id := false]), false)
      else ToggleStep(s, false)
    else ToggleStep(s.(isPlaying := s.isPlaying[id := true]), true)
  }

  /** The asynchronous continuation of a toggle. Success creates (or reuses)
      the audio element and leaves the flag as it is; failure clears the flag. */
  function SettleSynthesis(s: ChatState, id: string, outcome: Synthesis): (r: ChatState)
    ensures outcome == SynthesisFailed ==>
              !Playing(r, id) && r.isPlaying == s.isPlaying[id := false] && r.audioPresent == s.audioPresent
    ensures outcome == Synthesized ==>
              r.isPlaying == s.isPlaying && id in r.audioPresent && r.audioPresent == s.audioPresent + {id}
    ensures r.(isPlaying := s.isPlaying, audioPresent := s.audioPresent) == s
  {
    match outcome
    case Synthesized => s.(audioPresent := s.audioPresent + {id})
    case SynthesisFailed => s.(isPlaying := s.isPlaying[id := false])
  }

  /** The audio element's `onended`: clear the flag. */
  function EndAudio(s: ChatState, id: string): (r: ChatState)
    ensures !Playing(r, id) && id in r.isPlaying
    ensures r.(isPlaying := s.isPlaying) == s
  {
    s.(isPlaying := s.isPlaying[id := false])
  }

  /** One playback event. */
  function Apply(s: ChatState, e: PlaybackEvent): ChatState
  {
    match e
    case Toggle(id) => TogglePlayback(s, id).state
    case SynthesisSettled(id, outcome) => SettleSynthesis(s, id, outcome)
    case AudioEnded(id) => EndAudio(s, id)
  }

  /** A sequence of playback events, first to last. */
  function Run(s: ChatState, es: seq<PlaybackEvent>): ChatState
    decreases |es|
  {
    if |es| == 0 then s else Run(Apply(s, es[0]), es[1..])
  }

  /** An event touches only its own message's flag and audio element, and
      never the composer or the theme. */
  lemma ApplyFrame(s: ChatState, e: PlaybackEvent, other: string)
    requires other != e.Id()
    ensures var r := Apply(s, e);
      && (other in r.isPlaying <==> other in s.isPlaying)
      && (other in s.isPlaying ==> r.isPlaying[other] == s.isPlaying[other])
      && (other in r.audioPresent <==> other in s.audioPresent)
      && r.input == s.input && r.files == s.files && r.previewUrl == s.previewUrl && r.theme == s.theme
  {
  }

  /** Audio elements, once created, are never removed. */
  lemma ApplyKeepsAudio(s: ChatState, e: PlaybackEvent)
    ensures s.audioPresent <= Apply(s, e).audioPresent
  {
  }

  /** Over any run of events, a message none of the events names keeps its
      flag, and the composer and theme are untouched. */
  lemma {:induction false} RunFrame(s: ChatState, es: seq<PlaybackEvent>, other: string)
    requires forall i :: 0 <= i < |es| ==> es[i].Id() != other
    ensures var r := Run(s, es);
      && (other in r.isPlaying <==> other in s.isPlaying)
      && (other in s.isPlaying ==> r.isPlaying[other] == s.isPlaying[other])
      && (other in r.audioPresent <==> other in s.audioPresent)
      && r.input == s.input && r.files == s.files && r.previewUrl == s.previewUrl && r.theme == s.theme
    decreases |es|
  {
    if |es| > 0 {
      ApplyFrame(s, es[0], other);
      RunFrame(Apply(s, es[0]), es[1..], other);
    }
  }

  /** Start, then stop before any audio element exists for the message: the
      stop is ignored, the message stays marked playing, and only the first
      toggle issued a speech request. */
  lemma StopIgnoredBeforeFirstAudio(s: ChatState, id: string)
    requires !Playing(s, id) && id !in s.audioPresent
    ensures var first := TogglePlayback(s, id);
      var second := TogglePlayback(first.state, id);
      && first.requestsSpeech && !second.requestsSpeech
      && second.state == first.state && Playing(second.state, id)
  {
  }

  /** Start, synthesis succeeds, stop: the message ends not playing. */
  lemma StartPlayStop(s: ChatState, id: string)
    requires !Playing(s, id)
    ensures var started := SettleSynthesis(TogglePlayback(s, id).state, id, Synthesized);
      && Playing(started, id)
      && !Playing(TogglePlayback(started, id).state, id)
  {
  }

  /** Start, synthesis fails: the message ends not playing. */
  lemma StartFailReset(s: ChatState, id: string)
    requires !Playing(s, id)
    ensures var r := Run(s, [Toggle(id), SynthesisSettled(id, SynthesisFailed)]);
      !Playing(r, id) && r.audioPresent == s.audioPresent
  {
    var es := [Toggle(id), SynthesisSettled(id, SynthesisFailed)];
    var s1 := Apply(s, es[0]);
    assert es[1..] == [SynthesisSettled(id, SynthesisFailed)];
    assert Run(s, es) == Run(s1, es[1..]);
    assert Run(s1, es[1..]) == Run(Apply(s1, es[1]), []);
  }

  /** Nothing stops another message's audio: two different messages can be
      marked playing at once. */
  lemma TwoMessagesPlayAtOnce(s: ChatState, a: string, b: string)
    requires a != b && !Playing(s, a) && !Playing(s, b)
    ensures var r := TogglePlayback(TogglePlayback(s, a).state, b).state;
      Playing(r, a) && Playing(r, b)
  {
  }
}
