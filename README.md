# PropEx gain plugin: a verified model

PropEx is a small LV2 audio plugin with one audio input, one audio output and
an atom control port. Its two parameters, a gain in decibels and a polarity
flag, arrive as LV2 Patch `patch:Set` messages in the control port's event
sequence. Each cycle (`run`) first walks that sequence and updates the parameter
registers. It then scales the input buffer into the output buffer. The applied
gain follows the signed target through a one-pole low-pass filter that is
updated once per chunk of 16 samples. When the gain is within 0.01 of the
target, the plugin snaps it to the target and scales by the target directly.

The model has four modules:

- `Atoms` (`atoms.dfy`): the events of the control sequence, as values. URIDs
  are fixed, distinct constants. An atom is a tagged variant (URID, Float,
  Bool, other) instead of a type URID followed by a raw body.
- `Decoder` (`decoder.dfy`): `parse_property` as the pure function
  `ParseProperty` over the registers and the two looked-up keys of a message.
  Also the event loop as `ApplyEvents`, with the last-write-wins and
  timestamp properties.
- `Smoothing` (`smoothing.dfy`): the functions that define the audio half of `run`.
  - The signed target, the settled test, and the gain after `k` filter updates.
  - The number of chunks, the gain a cycle leaves behind, and the buffer a
    cycle renders.
  - Lemmas: the filter's closed form, no overshoot, convergence within one
    cycle and over several cycles, chunk bookkeeping, and the 48 kHz example.
- `Plugin` (`plugin.dfy`): the instance as the class `PropEx`, with the fields
  the source updates in place (`targetGain`, `polarity`, `gain`) and the
  filter coefficient `lpf`.
  - The constructor is the initialisation that ends `instantiate`.
  - `ProcessEvents` is the event loop; `Smooth` and `Ramp` are the audio loops
    over arrays; `Run` is `run`.
  - Each method is proved against the `Decoder` and `Smoothing` functions.

Floats are modelled as `real`, so the model has no rounding. The decibel to
coefficient conversion `powf(10, .05 f)` is the parameter `dbToCoeff`, and
nothing is assumed about it. The ports are parameters of `Run`: the control
sequence is an `Option` (`None` is an unconnected port), and `in` and `out`
are arrays that may be the same array.

`run` discards the result of each `parse_property` call
(src/property_example.c:230). `ParseProperty` reports an `Applied` or
`Rejected(error)` status per message, and `Step` drops it. From gain 0
towards 1 at 48 kHz, two filter updates give
0.020625 + 0.020625 * (1 - 0.020625) = 0.040824609375 in real arithmetic
(`Smoothing.EndToEndGain`).

## Model

| member | source | states |
|---|---|---|
| `Decoder.ParseProperty` | src/property_example.c:141-200 | a message is applied iff it names the gain with a Float or the polarity with a Bool; the gain becomes `dbToCoeff(f)` and the polarity `b`, the other register is kept; a rejection leaves both registers unchanged |
| `Decoder.RejectionKinds` | src/property_example.c:153-198 | which error each rejected message gets, as an iff per error: no property, non-URID property, no value, gain without a Float, polarity without a Bool, unknown property, checked in that order |
| `Decoder.Step` | src/property_example.c:211-236 | one event: the registers change only through a well-formed gain or polarity `patch:Set`, to the value it carries |
| `Decoder.ApplyEvents` | src/property_example.c:211-237 | the event loop: the registers after `Step` has been applied to each event in sequence order; the body is the definition, and the lemmas below state what it does |
| `Decoder.SkippedEventsChangeNothing` | src/property_example.c:212-216 | an event that is not an Object, or an Object that is not a `patch:Set`, leaves the registers as they were |
| `Decoder.LastGainWins` | src/property_example.c:211-237 | after the loop the target gain is the coefficient of the last well-formed gain event |
| `Decoder.NoGainEventKeepsGain` | src/property_example.c:211-237 | with no well-formed gain event in the sequence the target gain is unchanged |
| `Decoder.LastPolarityWins` | src/property_example.c:211-237 | after the loop the polarity is the flag of the last well-formed polarity event |
| `Decoder.NoPolarityEventKeepsPolarity` | src/property_example.c:211-237 | with no well-formed polarity event the polarity is unchanged |
| `Decoder.TimestampsIgnored` | src/property_example.c:217-230 | two sequences with the same bodies in the same order leave the same registers, whatever their frame offsets |
| `Decoder.LastWriteWinsExample` | src/property_example.c:211-237 | -6 dB then 0 dB in one cycle leaves the coefficient of 0 dB and the polarity untouched |
| `Smoothing.Target` | src/property_example.c:244 | the target has the magnitude of the target gain, and for a positive gain it is negative exactly when polarity is set |
| `Smoothing.Settled` | src/property_example.c:246 | the fast-path test `fabsf(gain - target) < 0.01`, as `Abs(gain - target) < 0.01`; the body is the definition |
| `Smoothing.GainAfter` | src/property_example.c:261 | the gain after `k` applications of `gain += lpf * (target - gain)`; the body is the definition, and `DistanceAfter` gives its closed form |
| `Smoothing.Chunks` | src/property_example.c:257-266 | the number of passes of the `while (remain > 0)` loop, a ceiling division by 16; the body is the definition, and `ChunksCover` states the ceiling |
| `Smoothing.NextGain` | src/property_example.c:246-267 | the `self->gain` a cycle of `n` samples leaves: the target on the settled path, else the gain after `Chunks(n)` updates; the body is the definition |
| `Smoothing.SampleGain` | src/property_example.c:248-264 | the multiplier of sample `i`: the target on the settled path, else the gain after the update that starts its chunk; the body is the definition |
| `Smoothing.Rendered` | src/property_example.c:246-267 | a cycle renders exactly `n` samples (what each sample is, is stated by `RenderedAt` on the transition path, `RenderedSettled` on the settled path, and `LastSampleUsesStoredGain`) |
| `Smoothing.ChunksCover` | src/property_example.c:257-266 | the chunk count is the ceiling of `n / 16`: the chunks cover the buffer and the last one is not empty |
| `Smoothing.NextChunk` | src/property_example.c:259-265 | after `k` full chunks, one more chunk of 1 to 16 samples makes `k + 1` chunks, and all its samples belong to chunk `k` |
| `Smoothing.DistanceAfter` | src/property_example.c:261 | after `k` updates the signed distance to the target is `(1 - lpf)^k` times the initial one |
| `Smoothing.DistanceShrinks` | src/property_example.c:261 | for `0 < lpf <= 1`, the absolute distance after `k` updates is `(1 - lpf)^k` times the initial one |
| `Smoothing.NoOvershoot` | src/property_example.c:261 | for `0 < lpf <= 1` one update multiplies the distance by `1 - lpf` and keeps the gain between its old value and the target |
| `Smoothing.StaysBetween` | src/property_example.c:259-266 | over any number of updates the gain stays between its start and the target and never gets further away |
| `Smoothing.SettlesWithin` | src/property_example.c:246-261 | `k` updates with `k * lpf >= 100 * distance` bring the gain within 0.01 of the target |
| `Smoothing.CycleShrinks` | src/property_example.c:243-267 | for `0 < lpf <= 1` and a non-empty buffer, one cycle either snaps the gain onto the target or multiplies its distance to the target by at most `1 - lpf` |
| `Smoothing.CyclesDistance` | src/property_example.c:243-267 | over `m` non-empty cycles with fixed registers the distance shrinks at least by `(1 - lpf)^m` |
| `Smoothing.ReachesTarget` | src/property_example.c:246-252 | with fixed registers the gain equals the target exactly after at most `m + 1` non-empty cycles, where `m * lpf >= 100 * distance` |
| `Smoothing.SettledIsFixedPoint` | src/property_example.c:246-252 | a gain on its target stays there, and the cycle multiplies every sample by the target |
| `Smoothing.LastSampleUsesStoredGain` | src/property_example.c:261-267 | the gain stored after a cycle is the one the last sample was multiplied by |
| `Smoothing.ChunkSharesGain` | src/property_example.c:260-264 | samples of one chunk are multiplied by the same gain |
| `Smoothing.RenderedAt` | src/property_example.c:259-265 | on the transition path sample `i` of chunk `k` is `in[i]` times the gain after `k` updates |
| `Smoothing.RenderedSettled` | src/property_example.c:246-250 | a buffer scaled sample by sample by the target is the settled rendering |
| `Smoothing.RenderedTransition` | src/property_example.c:259-265 | a buffer whose chunk `c` is scaled by the gain after `c + 1` updates is the transition rendering |
| `Smoothing.FirstUpdatesAt48k` | src/property_example.c:114 | at 48 kHz `lpf = 0.020625`; from 0 towards 1 the first two updates give 0.020625 and 0.040824609375 |
| `Smoothing.EndToEndGain` | src/property_example.c:243-267 | a 32-sample cycle at 48 kHz from gain 0 towards 1 leaves the gain at 0.040824609375 |
| `Smoothing.EndToEndOutput` | src/property_example.c:259-265 | in that cycle, with an input of ones, the first 16 samples equal the gain after one update and the last 16 the gain after two, not 1.0 |
| `Plugin.PropEx.constructor` | src/property_example.c:111-114 | a new instance has gain 0, target gain 1, polarity off and `lpf = 990 / rate` |
| `Plugin.PropEx.ProcessEvents` | src/property_example.c:211-237 | the registers after the loop are `ApplyEvents` of the registers before it over the whole sequence |
| `Plugin.PropEx.Smooth` | src/property_example.c:239-267 | the stored gain becomes `NextGain`, `out[0..n)` becomes `Rendered` of the old input, the rest of `out` is untouched, and for `0 < lpf <= 1` the gain gets no further from the target |
| `Plugin.PropEx.Run` | src/property_example.c:202-268 | an unconnected control port changes nothing; otherwise the registers follow `ApplyEvents` and the audio follows `Smooth` with the new target |
| `Plugin.Ramp` | src/property_example.c:255-267 | the chunked loop ends with the gain after `ceil(n / 16)` updates, and `out[0..n)` is the transition rendering of the old input |
| `Plugin.ScaleBy` | src/property_example.c:248-250 | `count` samples from `from` are the old input times the factor; every other output sample is untouched |

## Left out

- The LV2 descriptor, `connect_port`, `cleanup` and `extension_data` are left out: they hold no logic. The ports are `Run`'s parameters.
- The start of `instantiate` is left out: allocation, the scan of the host's feature list, the logger, and `map_uris` with its calls into the host's URID map. The URIDs are fixed, distinct constants, and the instance is built only once a map has been found. The `NULL` returned without `urid:map` (src/property_example.c:103-107) is not modelled.
- Plugin.PropEx.constructor: requires a positive sample rate. A host never passes another, and the source divides by it without a check.
- Logging (`lv2_log_error`, `lv2_log_note`) is left out. Each error message corresponds to a `ParseError` kind that `ParseProperty` reports; the notes logged with the received value on every accepted message (src/property_example.c:185, :193) are dropped.
- `powf` is not modelled: the decibel to coefficient conversion is the parameter `dbToCoeff`, and nothing numerical is proved about it.
- IEEE single precision is not modelled. Rounding, the exact float behaviour of the `< 0.01` test, and `990.f / rate` computed in double and stored as float are all replaced by exact real arithmetic.
- NaN and infinity are not modelled. A gain message carrying NaN, or a value above about 770 dB so that `powf` overflows, makes `target_gain` NaN or infinite. From then on `fabsf(gain - target) < 0.01` (src/property_example.c:246) is never true, line 261 makes `gain` NaN, and it stays NaN even after a valid message, so the output is NaN until the plugin is instantiated again. Real arithmetic cannot show this.
- `uint32_t` sample counts are modelled as unbounded naturals. Every `uint32_t` value is a natural, and `remain -= n_proc` (src/property_example.c:265) never wraps because `n_proc <= remain`, so nothing is lost.
- `LV2_ATOM_SEQUENCE_FOREACH` and `lv2_atom_object_get` are not modelled; the sequence is a `seq<Event>` and an object's two keys are `Option`s. A Bool atom is a `bool`. Line 192 reads the first byte of the 32-bit `LV2_Atom_Bool` body as a C `bool`; the model assumes a body of 0 or 1 on a little-endian host (a body of 256 would read as false there, and a body of 1 as false on a big-endian host).
- Plugin.PropEx.Run: the event frame offsets are kept in each `Event` and play no part, as in the source. Sample-accurate automation is a possible future change that the source only describes in a comment.
- Smoothing.EndToEndOutput: states the per-sample values of the 48 kHz example in terms of the gains after one and two updates. `Smoothing.FirstUpdatesAt48k` gives those gains as numbers in a separate lemma.
