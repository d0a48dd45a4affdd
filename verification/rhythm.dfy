/** The render pipeline shared by the single-file generator and the batch
    generator: build the pattern, synthesize one burst, mix it in at every hit.
    The output buffer is what the WAV encoder receives.
 */
module Rhythm {
  import Euclid
  import Synth
  import Mixer

  /** One rhythm to render. The drum frequency and output file of Go's
      `RhythmConfig` only reach the tone and the file writer, which are
      outside this model. */
  datatype RhythmConfig = RhythmConfig(name: string, steps: nat, pulses: int, bpm: int)

  /** Fixed audio parameters of both generators. */
  const SampleRate: nat := 44100
  const DrumLengthMs: nat := 80

  /** Renders one configuration: its pattern, the burst, and the mixed buffer. */
  method GenerateRhythm(config: RhythmConfig, tone: (nat, nat) -> int)
    returns (pattern: seq<int>, drum: seq<int>, out: seq<int>)
    requires config.bpm > 0
    ensures pattern == Euclid.Bjorklund(config.steps, config.pulses)
    ensures |pattern| == config.steps && Euclid.Binary(pattern)
    ensures 0 <= config.pulses <= config.steps ==> multiset(pattern)[1] == config.pulses
    ensures |drum| == Synth.BurstLength(SampleRate, DrumLengthMs) == 3528
    ensures forall i :: 0 <= i < |drum| ==> drum[i] == tone(i, |drum|)
    ensures |out| == Mixer.BufferLength(SampleRate, config.steps, Mixer.BeatMs(config.bpm))
    ensures out == Mixer.Mixed(pattern, drum, SampleRate, Mixer.BeatMs(config.bpm), |out|)
    ensures config.pulses == 0 ==> forall k :: 0 <= k < |out| ==> out[k] == 0
  {
    pattern := Euclid.Bjorklund(config.steps, config.pulses);
    if 0 <= config.pulses <= config.steps {
      Euclid.PulseCount(config.steps, config.pulses);
    }
    drum := Synth.SynthDrum(SampleRate, DrumLengthMs, tone);
    Synth.DefaultBurstLength();
    out := Mixer.Render(pattern, drum, SampleRate, config.steps, config.bpm);
    if config.pulses == 0 {
      forall k | 0 <= k < |out|
        ensures out[k] == 0
      {
        Mixer.NoPulsesIsSilent(config.steps, drum, SampleRate, Mixer.BeatMs(config.bpm), k);
      }
    }
  }

  /** The single-file generator's settings: 16 steps at 120 BPM give a
      500 ms beat, a 352800-sample buffer, and step starts 22050 samples
      apart. */
  lemma DefaultRender()
    ensures Mixer.BeatMs(120) == 500
    ensures Mixer.BufferLength(SampleRate, 16, 500) == 352800
    ensures forall i :: 0 <= i < 16 ==> Mixer.HitStart(i, SampleRate, 500) == 22050 * i
  {
  }
}
