# Euclidean rhythm generator — Dafny model

This project models the integer core of `euclidgen`, a small Go program. The
program turns a rhythm specification (`steps`, `pulses`) into a hit/rest
pattern with a Bjorklund-style grouping algorithm. It then renders that
pattern into a mono 16-bit sample buffer: it synthesizes one decaying tone
burst and adds it into the buffer at every hit.

The Go source has three entry points. `bjorklund` is copied into all three:
`cmd/euclidgen/main.go:32-79`, `cmd/euclidgen/demo.go:15-53` and
`cmd/euclidgen/examples.go:17-55`. `synthDrum` is copied into two:
`cmd/euclidgen/main.go:95-108` and `cmd/euclidgen/examples.go:57-67`.
`formatPattern` exists only in `cmd/euclidgen/demo.go:56-66`. The copies are
identical, so each is modelled once here, and the rows below cite whichever
copy they describe.

Modules:

- `Groups` (`groups.dfy`) holds the list of symbol groups. It models one pairing pass
  (`Pass`) and the repetition of passes until one merges nothing (`Settle`).
- `Euclid` (`euclid.dfy`) holds `Bjorklund`: the edge cases, the initial
  groups with hits first, and flattening. It also gives an independent
  closed form of the result and proves the two equal.
- `Display` (`display.dfy`) holds `formatPattern`, which shows a hit as `X`
  and anything else as `.`.
- `Synth` (`synth.dfy`) holds the burst length of `synthDrum`. Sample values
  come from a `tone` parameter.
- `Mixer` (`mixer.dfy`) holds the timing arithmetic and the mixing loop. `Mix`
  is the reference sum that `Render` is proved to compute.
- `Rhythm` (`rhythm.dfy`) holds the render pipeline of `generateRhythm`, with
  its fixed 44100 Hz sample rate and 80 ms burst.

## What the code computes

- One pairing pass pairs each minority symbol with one majority symbol taken
  from the tail. The second pass never merges. So the result is `[1, 0]`
  repeated `min(pulses, steps - pulses)` times, followed by the leftover
  majority symbol. For (8, 3) this is `X.X.X...`, not the Cuban tresillo
  `X..X..X.` claimed by the doc comment at `cmd/euclidgen/main.go:23`. The
  model follows the code, and `Euclid.EightThreeIsNotTresillo` states this.
  The (16, 6) example at `cmd/euclidgen/main.go:24` holds.
- Hit `i` starts at `i * sampleRate * beatMs / 1000` and the buffer holds
  `sampleRate * steps * beatMs / 1000` samples. Each is truncated once,
  after the full product. A start is therefore not `i` times a truncated
  per-beat sample count. At 110 BPM, step 2 starts at 48069, not at twice
  step 1's start (`Mixer.StartsTruncateOnce`).
- The doc comment at `cmd/euclidgen/main.go:28` says `pulses` must be at
  most `steps`, but nothing checks it. With `pulses > steps` every initial
  group is a hit, no merge fires, and the result is `steps` hits. A negative
  `pulses` gives `steps` rests. The model follows the code
  (`Euclid.OverfullPulses`, `Euclid.NegativePulses`).
- Patterns are Go `[]int` values, not booleans. `formatPattern` shows any
  value other than 1 as a rest.

## Model

| member | source | states |
|---|---|---|
| Groups.Merge | cmd/euclidgen/main.go:59-65 | under the merge condition (group `i` and the last group are single, differing symbols), the merged list is one shorter; group `i` gains the last group's symbol as its second element; every other group stays in place |
| Groups.MergeConserves | cmd/euclidgen/main.go:63-64 | one merge keeps the multiset of all symbols: the flattened list only changes where the moved symbol sits |
| Groups.Pass | cmd/euclidgen/main.go:57-67 | a pass shrinks the list by exactly its merge count; a pass with zero merges leaves the list unchanged, and then no index from `i` to the one before last was mergeable with the last group |
| Groups.PassConserves | cmd/euclidgen/main.go:58-67 | a whole pass keeps the multiset of all symbols |
| Groups.Settle | cmd/euclidgen/main.go:55-71 | the repeated passes terminate, since every merging pass shortens the list; the result is a fixed point where no group before the last is a singleton of the other symbol than a singleton last group; the symbols are conserved |
| Euclid.Bjorklund | cmd/euclidgen/main.go:32-79 | for any pulse count, including negative and excessive ones, the pattern has exactly `steps` entries and each is 0 or 1 |
| Euclid.BjorklundClosedForm | cmd/euclidgen/main.go:45-78 | for `0 <= pulses <= steps` the output is `[1,0]` repeated `m = min(pulses, steps-pulses)` times, then `steps-2m` copies of 1 if `pulses > steps-pulses`, else of 0 |
| Euclid.ShapeIsQuiet | cmd/euclidgen/main.go:58-61 | once single hits or single rests are used up, a list of `[1,0]` pairs followed by singletons of one symbol is never merged, from any starting index |
| Euclid.FirstPass | cmd/euclidgen/main.go:58-67 | from `m` pairs, `a` single hits and `b` single rests, the pass from index `m` makes exactly `min(a,b)` merges and leaves `m+min(a,b)` pairs, then the unmatched singletons |
| Euclid.SettleInitial | cmd/euclidgen/main.go:45-71 | for `0 < pulses < steps` the passes settle the initial groups into `min(pulses, steps-pulses)` pairs `[1,0]` followed by the leftover singletons of the majority symbol |
| Euclid.SecondPassQuiet | cmd/euclidgen/main.go:56-71 | for `0 < pulses < steps` the first pass merges exactly `min(pulses, steps-pulses)` times and the second pass merges nothing |
| Euclid.PulseCount | cmd/euclidgen/main.go:27-31 | for `0 <= pulses <= steps` the pattern has `steps` entries: exactly `pulses` ones and `steps-pulses` zeros (proved from symbol conservation, not from the closed form) |
| Euclid.EdgeCases | cmd/euclidgen/demo.go:16-25 | `pulses == 0` gives `steps` rests and `pulses == steps` gives `steps` hits, before any grouping |
| Euclid.OverfullPulses | cmd/euclidgen/demo.go:26-47 | with `pulses > steps` the result is `steps` hits, so the hit count differs from `pulses` |
| Euclid.NegativePulses | cmd/euclidgen/examples.go:28-35 | with `pulses < 0` every initial group is a rest and the result is `steps` rests |
| Euclid.SixteenSixExample | cmd/euclidgen/main.go:24 | `bjorklund(16, 6)` is `1,0,1,0,1,0,1,0,1,0,1,0,0,0,0,0`, as documented |
| Euclid.EightThreeIsNotTresillo | cmd/euclidgen/main.go:23 | `bjorklund(8, 3)` is `1,0,1,0,1,0,0,0` and not the documented `1,0,0,1,0,0,1,0` |
| Display.FormatPattern | cmd/euclidgen/demo.go:56-66 | the string has one character per entry; character `k` is `X` exactly when entry `k` is 1, and `.` exactly when it is anything else |
| Display.FormatConcat | cmd/euclidgen/demo.go:58-64 | formatting a concatenation is the concatenation of the formatted parts |
| Display.HitsShown | cmd/euclidgen/demo.go:58-64 | the number of `X` characters equals the number of entries equal to 1 |
| Display.FormatInjective | cmd/euclidgen/demo.go:58-64 | on 0/1 patterns, equal strings come only from equal patterns |
| Display.GeneratedHitsShown | cmd/euclidgen/demo.go:144-145 | for `0 <= pulses <= steps` the displayed pattern has `steps` characters, of which exactly `pulses` are `X` |
| Synth.BurstLength | cmd/euclidgen/main.go:96 | the burst length is `sampleRate*lengthMs` divided by 1000 and truncated: `n*1000 <= sampleRate*lengthMs < (n+1)*1000` |
| Synth.SynthDrum | cmd/euclidgen/examples.go:57-67 | the burst has exactly `BurstLength(sampleRate, lengthMs)` samples, the truncated `sampleRate*lengthMs/1000`, and sample `i` is the tone's value at `i` for that length |
| Synth.DefaultBurstLength | cmd/euclidgen/examples.go:81-82 | at 44100 Hz an 80 ms burst has 3528 samples |
| Mixer.BeatMs | cmd/euclidgen/main.go:124 | the beat length in ms is `60000/bpm` truncated: `ms*bpm <= 60000 < (ms+1)*bpm` |
| Mixer.BufferLength | cmd/euclidgen/main.go:149 | the buffer length is `sampleRate*steps*beatMs`, truncated once after the full product |
| Mixer.HitStart | cmd/euclidgen/main.go:156 | the start of step `i` is `i*sampleRate*beatMs/1000`, truncated once after the full product, which is exactly where a buffer of `i` steps would end |
| Mixer.AddBurst | cmd/euclidgen/main.go:159-161 | the buffer keeps its length; position `k` gains `drum[k-start]` exactly when `start <= k < start+len(drum)`, so only the burst's tail is clipped at the buffer's end |
| Mixer.Render | cmd/euclidgen/main.go:149-163 | the buffer has the truncated length, and each sample equals the sum, over the hits `i`, of `drum[k-start_i]` for the hits whose window `[start_i, start_i+len(drum))` contains `k` |
| Mixer.StartsOrdered | cmd/euclidgen/examples.go:96 | hit starts never decrease as the step index grows |
| Mixer.StartsInBuffer | cmd/euclidgen/examples.go:96-97 | every step `i < steps` starts at or before the buffer's end, so with the length guard no write leaves the buffer |
| Mixer.SilentPattern | cmd/euclidgen/examples.go:94-101 | rest steps contribute nothing: a pattern with no 1 entries mixes to zero everywhere |
| Mixer.NoPulsesIsSilent | cmd/euclidgen/examples.go:86-101 | a generated pattern with `pulses == 0` renders an all-zero buffer |
| Mixer.SingleHit | cmd/euclidgen/examples.go:97-98 | a lone hit at step `h` yields the burst from its first sample at `start_h` and zero everywhere else |
| Mixer.HitsAdd | cmd/euclidgen/main.go:153-163 | when the hits of one pattern are the disjoint union of the hits of two others, its mix is the sum of their mixes |
| Mixer.OverlapIsNotClamped | cmd/euclidgen/examples.go:98 | two overlapping bursts sum to 40000, past the 16-bit range, with no clamping |
| Mixer.StartsTruncateOnce | cmd/euclidgen/examples.go:83-96 | at 110 BPM the beat is 545 ms, and step 2 starts at 48069, not at twice step 1's start (48068) |
| Rhythm.GenerateRhythm | cmd/euclidgen/examples.go:80-101 | the pattern is `bjorklund(steps, pulses)`: `steps` 0/1 entries and, for a valid spec, exactly `pulses` hits; sample `i` of the burst is the tone at `i`; the burst has `BurstLength(44100, 80)` = 3528 samples; the buffer has the truncated length and equals the reference mix of the pattern, sample by sample; zero pulses give silence |
| Rhythm.DefaultRender | cmd/euclidgen/main.go:112-124 | at the default 120 BPM the beat is 500 ms, 16 steps give 352800 samples, and step `i` starts at `22050*i` |

## Left out

- The sample values of `synthDrum` (`cmd/euclidgen/main.go:99-106`) are left out because they use `math.Exp`, `math.Sin` and float-to-int truncation. The model takes them as the `tone` parameter, applied to the sample index and the burst length. The drum frequency reaches only that formula, so it is not modelled.
- WAV encoding through the go-audio `IntBuffer` and `wav.NewEncoder`, and file creation (`cmd/euclidgen/main.go:166-193`, `cmd/euclidgen/examples.go:103-123`), are left out: they are an external library and file I/O.
- Console output is left out, including the pattern display loops inside `main` and `generateRhythm` (the same mapping as `formatPattern`) and the duration, file-size and density printouts.
- Directory creation and `filepath.Join` in the batch driver are left out as OS interaction. `RhythmConfig` keeps only the fields the render uses, plus the name.
- The hard-coded example tables are left out; they are data only.
- The claims that the pulses are spread "as evenly as possible" (`cmd/euclidgen/main.go:19`) and that (8, 3) gives the tresillo are not proved, because the code does not compute that (see above).
- Go's 64-bit `int` overflow is not modelled. Integers are unbounded; the products involved stay near 3.5e8.
- Mixer.Render: requires `bpm > 0` and takes `sampleRate` and `steps` as naturals. For `bpm == 0` the Go code divides by zero. For negative values it either panics on a negative buffer length or index, or computes with truncation toward zero; those corners are not modelled.
- Synth.SynthDrum: takes `sampleRate` and `lengthMs` as naturals. Negative lengths are not modelled.
- Euclid.Bjorklund: takes `steps` as a natural. For a negative `steps`, Go panics in `make` (`cmd/euclidgen/main.go:35`, `:38` or `:46`, depending on `pulses`); that panic is not modelled. The same holds for `RhythmConfig.steps`.
- Rhythm.GenerateRhythm: requires `config.bpm > 0`. With a zero BPM, `cmd/euclidgen/examples.go:83` divides by zero and panics; that panic is not modelled.
- Determinism needs no lemma: every function is deterministic, and the methods' contracts fix their outputs completely (`Rhythm.GenerateRhythm` pins its pattern to `Euclid.Bjorklund`, its burst to the tone, and its buffer to `Mixer.Mixed`).
