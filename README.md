# ADSR envelope and key scan of a monophonic synthesizer

This project models the part of the synthesizer that sets its loudness. The envelope
(`sEnvelopeADSR`) shapes each note's amplitude in four stages: attack, decay, sustain and
release. The key scan of the main loop turns the set of keys held down into note-on and
note-off calls on that envelope.

- `Envelope` (envelope.dfy): the envelope is the class `EnvelopeADSR`. Its fields are those of the
  struct. Both constructors are modelled. `NoteOn` and `NoteOff` are methods that change the
  gate flag and one trigger time. `GetAmplitude` is a function that only reads the object.
  Its raw value follows the source's three guarded assignments in their order (attack, decay,
  sustain), so when two guards hold the later one wins. With the gate closed it is the release
  ramp. The result is then clamped: anything at or below 0.0001 becomes 0.
  The source's `double`s are exact `real`s.
- `EnvelopePhases` (envelope_phases.dfy): what each phase yields, that the phases meet at
  their boundaries, that the amplitude is Lipschitz-continuous while the gate is open, the bounds
  it keeps, the silence at the end of the release, and the hard restart on a retrigger.
- `EnvelopeScenarios` (scenarios.dfy): three note sequences on freshly built envelopes, with
  the exact amplitudes they produce.
- `KeyScan` (keyscan.dfy): one pass of the scan over the 16 keys. The method `ScanPass` takes
  the key states as an array, the envelope, the current time and the current key. It calls
  `NoteOn`/`NoteOff` as the source does and returns the new current key (`-1` means no key).
  It also returns the list of transitions the program prints, with the key index in place of
  the frequency. It is proved equal to the specification function `Pass`, a left fold of
  one scan step per key. The lemmas about `Pass` compare it with independent definitions:
  the highest key that is down, and the keys that trigger.

Division by zero: the source divides by the attack time whenever the life time has not
passed it, and by the release time whenever the gate is closed. It divides by the decay
time only inside the decay branch, which can only be entered when the decay time is positive.
`GetAmplitude` requires `DividesSafely(time)`. That predicate states exactly these divisor
conditions and nothing more. So the instance the program plays through (attack 0.0,
Synth/Synth.cpp:93) can be queried at every time after its trigger.

Where the design description and the code disagree, the model follows the code:
- The design asks for zero-length phases to be handled as instantaneous jumps. The code has
  no such branch; it divides. The model has no such branch either, and excludes the zero
  divisors through `DividesSafely`.
- The design says the amplitude lies in [0, 1]. The code keeps it in
  [0, max(start, sustain)] only for non-negative durations and levels and for times not
  before the release trigger (`AmplitudeBounded`). Before the release trigger the release
  ramp rises above the sustain level.
- The design calls the envelope's input a monotonic time. The code does not check this, and
  neither does the model: lemmas that need it say so in their preconditions.

## Model

| member | source | states |
|---|---|---|
| `Envelope.Clamp` | Synth/Synth.cpp:83 | the result is exactly 0 or above 0.0001, and any value above 0.0001 passes unchanged |
| `Envelope.EnvelopeADSR.constructor` | Synth/Synth.cpp:19-28 | default shape: attack 0.10, decay 0.01, start 1.0, sustain 0.8, release 0.20; gate closed, both trigger times 0 |
| `Envelope.EnvelopeADSR.WithTimes` | Synth/Synth.cpp:30-39 | stores the four arguments as attack, decay, sustain and release, sets start 1.0, closes the gate and zeroes both trigger times |
| `Envelope.EnvelopeADSR.NoteOn` | Synth/Synth.cpp:42-45 | opens the gate and sets the trigger-on time; the trigger-off time and the five shape parameters are unchanged |
| `Envelope.EnvelopeADSR.NoteOff` | Synth/Synth.cpp:48-51 | closes the gate and sets the trigger-off time; the trigger-on time and the shape parameters are unchanged |
| `Envelope.EnvelopeADSR.GetAmplitude` | Synth/Synth.cpp:54-86 | only reads the envelope; the result is never negative, is exactly 0 or above 0.0001, and equals the raw phase value whenever that is above 0.0001 |
| `EnvelopePhases.AttackPhase` | Synth/Synth.cpp:59-62 | gate open with life time in [0, attack]: the amplitude is the clamped ramp (life time / attack) * start, and at most start |
| `EnvelopePhases.AttackPeak` | Synth/Synth.cpp:59-62 | at life time equal to the attack time the amplitude is the (clamped) start amplitude |
| `EnvelopePhases.DecayPhase` | Synth/Synth.cpp:64-69 | life time in (attack, attack + decay]: decay is positive, the amplitude is the clamped decay line, and the raw value lies between start and sustain |
| `EnvelopePhases.DecayReachesSustain` | Synth/Synth.cpp:64-74 | at life time attack + decay the amplitude is exactly the (clamped) sustain level, so decay meets sustain |
| `EnvelopePhases.PhaseBoundariesMeet` | Synth/Synth.cpp:59-80 | attack and decay lines agree on start at the end of the attack, the decay line gives sustain at its end, the release line starts at sustain and reaches 0 after one release time |
| `EnvelopePhases.SustainHolds` | Synth/Synth.cpp:71-74 | gate open and life time past attack + decay: the amplitude is the clamped sustain level, independent of the time |
| `EnvelopePhases.ReleaseDependsOnlyOnOffset` | Synth/Synth.cpp:75-80 | gate closed: two envelopes with the same sustain and release give the same amplitude at the same time since release, whatever their trigger-on times, attack and decay |
| `EnvelopePhases.ReleaseStartsAtSustain` | Synth/Synth.cpp:75-80 | at the release trigger the amplitude is the clamped sustain level |
| `EnvelopePhases.ReleaseBounded` | Synth/Synth.cpp:75-83 | during one release time after the gate closes the amplitude lies between 0 and the sustain level |
| `EnvelopePhases.ReleaseEndsSilent` | Synth/Synth.cpp:75-83 | from one release time after the gate closes on, the amplitude is exactly 0 |
| `EnvelopePhases.RetriggerRestartsAttack` | Synth/Synth.cpp:42-62 | at the moment of a note-on (positive attack) the amplitude is 0, whatever attack or release was in progress |
| `EnvelopePhases.AmplitudeBounded` | Synth/Synth.cpp:54-86 | non-negative durations and levels, not before the release trigger: the amplitude lies in [0, max(start, sustain)] |
| `EnvelopePhases.OpenEnvelopeContinuous` | Synth/Synth.cpp:58-74 | gate open, positive attack and decay: the raw amplitude changes by at most slope * |t2 - t1| for any slope at least as steep as the attack and decay lines, so there is no jump at the phase boundaries |
| `EnvelopePhases.ZeroAttackEnvelopeHoldsFullLevel` | Synth/Synth.cpp:93 | for the program's envelope (attack 0, decay 0.1, sustain 1.0, start 1.0) every time after the trigger is safe to query and gives 1.0 while the gate is open |
| `EnvelopeScenarios.HeldNote` | Synth/Synth.cpp:30-86 | attack 0.1, decay 0.01, sustain 0.8, release 0.1, held from 0 to 0.5: amplitudes 0, 1, 0.8, 0.8 at 0, 0.1, 0.11, 0.5 and 0.4, 0 at 0.55, 0.6 |
| `EnvelopeScenarios.InterruptedNote` | Synth/Synth.cpp:42-86 | released mid-attack and retriggered mid-release: 0.4 in the attack, a jump to 0.8 at the release, 0 at the retrigger |
| `EnvelopeScenarios.DefaultEnvelopeNote` | Synth/Synth.cpp:19-86 | default envelope held from 1 to 2: 1.0 at the peak, 0.8 sustained, 0.4 half way through the release, 0 at its end |
| `KeyScan.ScanKeysSeesDown` | Synth/Synth.cpp:127-141 | after scanning keys below n, a key was seen down exactly when one of them is down; with none down the scan changes nothing |
| `KeyScan.ScanKeysSelectsHighest` | Synth/Synth.cpp:128-141 | after scanning keys below n, the current key is the highest of them that is down, or the starting key when none is |
| `KeyScan.ScanKeysEvents` | Synth/Synth.cpp:128-141 | the scan of keys below n reports note-ons only, for strictly increasing keys, and exactly for the keys that trigger |
| `KeyScan.PassWithNothingDown` | Synth/Synth.cpp:143-151 | no key down: the current key becomes -1, with a single note-off if there was a current key and no event otherwise |
| `KeyScan.PassSelectsHighest` | Synth/Synth.cpp:127-151 | some key down: the pass ends with the highest key that is down as the current key |
| `KeyScan.PassEvents` | Synth/Synth.cpp:127-151 | a note-on is reported exactly for each key that is down and is not the current key when scanned; a note-off exactly when nothing is down and there was a current key |
| `KeyScan.ScanPass` | Synth/Synth.cpp:124-151 | the imperative pass returns the current key and events of `Pass`, leaves the envelope shape alone, and leaves the gate and trigger times as the last transition set them |

## Left out

- Oscillators (`oscilator`, `w`, Synth/Synth.cpp:157-190): sine, arcsine and `fmod` have no exact
  counterpart over reals, and the noise wave draws from `rand`.
- The sample function `makeNoise` (Synth/Synth.cpp:192-195): it multiplies the envelope by an
  oscillator value and reads the frequency shared with the audio thread. That sharing is
  concurrency.
- The frequency of a key, 110 Hz times the twelfth root of 2 to the key's power
  (Synth/Synth.cpp:90-91, 132): an irrational floating-point value. The model carries the key
  index instead, and the shared frequency variable is not modelled.
- Device enumeration, the sound device and its clock (Synth/Synth.cpp:102-122): these are I/O
  through `olcNoiseMaker.h`, which is not part of this model. Time is a parameter.
- `KeyScan.ScanPass`: the source reads the device clock afresh for each call. The model uses one
  time `now` for every transition of a pass.
- Keyboard polling with `GetAsyncKeyState` and its key-code table, the console output, and the
  endless outer loop (Synth/Synth.cpp:100-152): I/O. Only one pass is modelled. The key states
  are an input array, and the printed lines are the returned events.
- IEEE floating point: rounding, and the infinities or NaN that a zero divisor produces, are
  not modelled. `Envelope.EnvelopeADSR.GetAmplitude` requires that no division on the taken path is by zero.
